/** The diff of two snapshots, backend/app/diff/schema_diff.py: what its lists and its summary say. */
module SnapshotDiffs {
  import opened Dicts
  import opened Orders
  import opened Text
  import opened Snapshots
  import opened SchemaDiff

  datatype Summary = Summary(
    tablesAdded: nat, tablesRemoved: nat, tablesChanged: nat,
    columnsAdded: nat, columnsRemoved: nat, columnsChanged: nat,
    fksAdded: nat, fksRemoved: nat, hasChanges: bool)

  /** A changed column, with what it was and what it becomes. */
  datatype ColumnChange = ColumnChange(name: string, was: Column, to: Column)

  datatype ColumnsDiff = ColumnsDiff(added: seq<string>, removed: seq<string>, changed: seq<ColumnChange>)

  datatype TableChange = TableChange(
    table: TableKey, columns: ColumnsDiff, primaryKey: Option<(seq<string>, seq<string>)>,
    comment: Option<(Option<string>, Option<string>)>)

  datatype ForeignKey = ForeignKey(signature: FkSignature, name: Option<string>)

  datatype SnapshotDiff = SnapshotDiff(
    baseTableCount: nat, targetTableCount: nat,
    tablesAdded: seq<TableKey>, tablesRemoved: seq<TableKey>, tablesChanged: seq<TableChange>,
    fksAdded: seq<ForeignKey>, fksRemoved: seq<ForeignKey>, summary: Summary)

  // ---------------------------------------------------------------- sorted differences of keys

  predicate KeyLe(a: TableKey, b: TableKey) {
    StringLe(TableText(a), TableText(b))
  }

  function SignatureText(f: FkSignature): string {
    TableText(f.child) + "(" + Join(f.childColumns, ",") + ")->"
    + TableText(f.parent) + "(" + Join(f.parentColumns, ",") + ")"
  }

  predicate SignatureLe(a: FkSignature, b: FkSignature) {
    StringLe(SignatureText(a), SignatureText(b))
  }

  lemma {:induction false} KeysOrdered()
    ensures TotalPreorder(KeyLe) && TotalPreorder(SignatureLe)
  {
    StringOrder();
    hide StringLe, TableText, SignatureText;
  }

  /** The keys that are, or are not, among the others. */
  function Among<K(==)>(keys: seq<K>, others: set<K>, wanted: bool): seq<K> {
    if keys == [] then []
    else (if (keys[0] in others) == wanted then [keys[0]] else []) + Among(keys[1..], others, wanted)
  }

  lemma {:induction false} AmongMeaning<K>(keys: seq<K>, others: set<K>, wanted: bool)
    ensures forall k :: k in Among(keys, others, wanted) <==> k in keys && (k in others) == wanted
  {
    if keys != [] {
      AmongMeaning(keys[1..], others, wanted);
      assert keys == [keys[0]] + keys[1..];
    }
  }

  function Picked<K(==)>(le: (K, K) -> bool, keys: seq<K>, others: set<K>, wanted: bool): seq<K> {
    Sort(le, Among(keys, others, wanted))
  }

  lemma {:induction false} PickedMeaning<K(!new)>(le: (K, K) -> bool, keys: seq<K>, others: set<K>, wanted: bool)
    ensures forall k :: k in Picked(le, keys, others, wanted) <==> k in keys && (k in others) == wanted
    ensures TotalPreorder(le) ==> Sorted(le, Picked(le, keys, others, wanted))
  {
    AmongMeaning(keys, others, wanted);
    SameElements(Picked(le, keys, others, wanted), Among(keys, others, wanted));
    if TotalPreorder(le) {
      SortSorted(le, Among(keys, others, wanted));
    }
    hide TotalPreorder, Sorted, Among;
  }

  function TablesAdded(b: Index, t: Index): seq<TableKey> {
    Picked(KeyLe, t.tables.keys, b.tables.m.Keys, false)
  }

  function TablesRemoved(b: Index, t: Index): seq<TableKey> {
    Picked(KeyLe, b.tables.keys, t.tables.m.Keys, false)
  }

  function Survivors(b: Index, t: Index): seq<TableKey> {
    Picked(KeyLe, b.tables.keys, t.tables.m.Keys, true)
  }

  /** The foreign keys of one snapshot that the other does not have. */
  function FksOnlyIn(a: Index, b: Index): seq<ForeignKey> {
    WithNames(a, Picked(SignatureLe, a.fks.keys, b.fks.m.Keys, false))
  }

  function WithNames(a: Index, fs: seq<FkSignature>): (r: seq<ForeignKey>)
    ensures |r| == |fs| && forall i :: 0 <= i < |fs| ==> r[i].signature == fs[i]
  {
    if fs == [] then []
    else [ForeignKey(fs[0], if fs[0] in a.fks.m then a.fks.m[fs[0]] else None)] + WithNames(a, fs[1..])
  }

  /** The dictionaries list their keys. */
  ghost predicate KeysValid(ix: Index) {
    ix.tables.Valid() && ix.fks.Valid()
  }

  lemma {:induction false} KeysMeaning(ix: Index)
    requires KeysValid(ix)
    ensures forall k :: k in ix.tables.keys <==> k in ix.tables.m
    ensures forall f :: f in ix.fks.keys <==> f in ix.fks.m
  {
  }

  lemma {:induction false} TablesMeaning(b: Index, t: Index)
    requires KeysValid(b) && KeysValid(t)
    ensures forall k :: k in TablesAdded(b, t) <==> k in t.tables.m && k !in b.tables.m
    ensures forall k :: k in TablesRemoved(b, t) <==> k in b.tables.m && k !in t.tables.m
    ensures forall k :: k in Survivors(b, t) <==> k in b.tables.m && k in t.tables.m
    ensures Sorted(KeyLe, TablesAdded(b, t)) && Sorted(KeyLe, TablesRemoved(b, t)) && Sorted(KeyLe, Survivors(b, t))
  {
    hide KeyLe, Picked, Sorted, TotalPreorder, KeysValid;
    KeysMeaning(b);
    KeysMeaning(t);
    KeysOrdered();
    PickedMeaning(KeyLe, t.tables.keys, b.tables.m.Keys, false);
    PickedMeaning(KeyLe, b.tables.keys, t.tables.m.Keys, false);
    PickedMeaning(KeyLe, b.tables.keys, t.tables.m.Keys, true);
  }

  lemma {:induction false} FksOnlyMeaning(a: Index, b: Index, f: FkSignature)
    requires KeysValid(a)
    ensures (exists x :: x in FksOnlyIn(a, b) && x.signature == f) <==> f in a.fks.m && f !in b.fks.m
  {
    hide SignatureLe, Picked, KeysValid;
    KeysMeaning(a);
    var fs := Picked(SignatureLe, a.fks.keys, b.fks.m.Keys, false);
    PickedMeaning(SignatureLe, a.fks.keys, b.fks.m.Keys, false);
    var r := WithNames(a, fs);
    if f in fs {
      var i :| 0 <= i < |fs| && fs[i] == f;
      assert r[i] in r && r[i].signature == f;
    }
    if x :| x in r && x.signature == f {
      var i :| 0 <= i < |r| && r[i] == x;
      assert fs[i] in fs;
    }
  }

  // ---------------------------------------------------------------- columns

  function ChangesIn(bt: map<string, Column>, tt: map<string, Column>, names: seq<string>): seq<ColumnChange> {
    if names == [] then []
    else
      var n := names[|names| - 1];
      ChangesIn(bt, tt, names[..|names| - 1])
      + if n in bt && n in tt && bt[n] != tt[n] then [ColumnChange(n, bt[n], tt[n])] else []
  }

  function DiffColumns(bt: map<string, Column>, tt: map<string, Column>): ColumnsDiff {
    ColumnsDiff(SortedStrings(tt.Keys - bt.Keys), SortedStrings(bt.Keys - tt.Keys),
                ChangesIn(bt, tt, SortedStrings(bt.Keys * tt.Keys)))
  }

  lemma {:induction false} ChangesMeaning(
    bt: map<string, Column>, tt: map<string, Column>, names: seq<string>, x: ColumnChange)
    ensures x in ChangesIn(bt, tt, names) <==>
      x.name in names && x.name in bt && x.name in tt && bt[x.name] != tt[x.name] && x.was == bt[x.name] && x.to ==
        tt[x.name]
  {
    if names != [] {
      var init, n := names[..|names| - 1], names[|names| - 1];
      ChangesMeaning(bt, tt, init, x);
      assert names == init + [n];
    }
  }

  lemma {:induction false} NothingSorted(s: set<string>)
    ensures SortedStrings(s) == [] <==> s == {}
  {
  }

  lemma {:induction false} ColumnsSame(bt: map<string, Column>, tt: map<string, Column>)
    ensures DiffColumns(bt, tt) == ColumnsDiff([], [], []) <==> bt == tt
  {
    hide SortedStrings;
    NothingSorted(tt.Keys - bt.Keys);
    NothingSorted(bt.Keys - tt.Keys);
    var both := SortedStrings(bt.Keys * tt.Keys);
    if DiffColumns(bt, tt) == ColumnsDiff([], [], []) {
      assert tt.Keys - bt.Keys == {} && bt.Keys - tt.Keys == {};
      forall c ensures c in bt <==> c in tt {
        assert c !in tt.Keys - bt.Keys && c !in bt.Keys - tt.Keys;
      }
      forall c | c in bt && c in tt ensures bt[c] == tt[c] {
        ChangesMeaning(bt, tt, both, ColumnChange(c, bt[c], tt[c]));
        assert c in both;
      }
    } else if bt == tt {
      NoChanges(bt, tt, both);
    }
  }

  lemma {:induction false} NoChanges(bt: map<string, Column>, tt: map<string, Column>, names: seq<string>)
    requires bt == tt
    ensures ChangesIn(bt, tt, names) == []
  {
    if names != [] {
      NoChanges(bt, tt, names[..|names| - 1]);
    }
  }

  lemma {:induction false} ChangesStep(bt: map<string, Column>, tt: map<string, Column>, names: seq<string>, i: nat)
    requires i < |names| && names[i] in bt && names[i] in tt
    ensures ChangesIn(bt, tt, names[..i + 1]) == ChangesIn(bt, tt, names[..i])
      + if bt[names[i]] != tt[names[i]] then [ColumnChange(names[i], bt[names[i]], tt[names[i]])] else []
  {
    assert names[..i + 1][..i] == names[..i];
  }

  method CompareColumns(bt: map<string, Column>, tt: map<string, Column>) returns (d: ColumnsDiff)
    ensures d == DiffColumns(bt, tt)
  {
    var added, removed := SortedStrings(tt.Keys - bt.Keys), SortedStrings(bt.Keys - tt.Keys);
    var both := SortedStrings(bt.Keys * tt.Keys);
    var changed := CollectChanges(bt, tt, both);
    d := ColumnsDiff(added, removed, changed);
    hide SortedStrings;
  }

  method CollectChanges(bt: map<string, Column>, tt: map<string, Column>, both: seq<string>)
    returns (changed: seq<ColumnChange>)
    requires forall n :: n in both ==> n in bt && n in tt
    ensures changed == ChangesIn(bt, tt, both)
  {
    changed := [];
    assert ChangesIn(bt, tt, both[..0]) == [];
    hide ChangesIn;
    for i := 0 to |both|
      invariant changed == ChangesIn(bt, tt, both[..i])
    {
      var name := both[i];
      assert name in both;
      ChangesStep(bt, tt, both, i);
      var before, after := bt[name], tt[name];
      if before != after {
        changed := changed + [ColumnChange(name, before, after)];
      }
    }
    assert both[..|both|] == both;
  }

  // ---------------------------------------------------------------- tables

  function DiffTable(k: TableKey, bt: Table, tt: Table): TableChange {
    TableChange(k, DiffColumns(bt.columns.m, tt.columns.m),
                if bt.pk != tt.pk then Some((bt.pk, tt.pk)) else None,
                if bt.comment != tt.comment then Some((bt.comment, tt.comment)) else None)
  }

  lemma {:induction false} TableSame(bt: Table, tt: Table)
    ensures var d := DiffColumns(bt.columns.m, tt.columns.m);
      (d.added == [] && d.removed == [] && d.changed == [] && bt.pk == tt.pk && bt.comment == tt.comment)
      <==> SameTable(bt, tt)
  {
    ColumnsSame(bt.columns.m, tt.columns.m);
  }

  /** The given tables that both snapshots have and that differ, each with its changes. */
  ghost function ChangedTables(b: Index, t: Index, ks: seq<TableKey>): seq<TableChange> {
    if ks == [] then []
    else
      var k := ks[|ks| - 1];
      ChangedTables(b, t, ks[..|ks| - 1])
      + if k in b.tables.m && k in t.tables.m && !SameTable(b.tables.m[k], t.tables.m[k])
        then [DiffTable(k, b.tables.m[k], t.tables.m[k])] else []
  }

  lemma {:induction false} ChangedMeaning(b: Index, t: Index, ks: seq<TableKey>, x: TableChange)
    ensures x in ChangedTables(b, t, ks) <==>
      && x.table in ks && x.table in b.tables.m && x.table in t.tables.m
      && !SameTable(b.tables.m[x.table], t.tables.m[x.table])
      && x == DiffTable(x.table, b.tables.m[x.table], t.tables.m[x.table])
  {
    hide SameTable, DiffColumns;
    if ks != [] {
      var init, k := ks[..|ks| - 1], ks[|ks| - 1];
      ChangedMeaning(b, t, init, x);
      assert ks == init + [k];
    }
  }

  function Added(d: ColumnsDiff): nat { |d.added| }

  function Removed(d: ColumnsDiff): nat { |d.removed| }

  function Changed(d: ColumnsDiff): nat { |d.changed| }

  /** How many columns of the given tables fall under one heading. */
  ghost function CountColumns(b: Index, t: Index, ks: seq<TableKey>, pick: ColumnsDiff -> nat): nat {
    if ks == [] then 0
    else
      var k := ks[|ks| - 1];
      CountColumns(b, t, ks[..|ks| - 1], pick)
      + if k in b.tables.m && k in t.tables.m then pick(DiffColumns(b.tables.m[k].columns.m, t.tables.m[k].columns.m))
        else 0
  }

  lemma {:induction false} CountStep(b: Index, t: Index, ks: seq<TableKey>, i: nat, pick: ColumnsDiff -> nat)
    requires i < |ks| && ks[i] in b.tables.m && ks[i] in t.tables.m
    ensures CountColumns(b, t, ks[..i + 1], pick) == CountColumns(b, t, ks[..i], pick)
      + pick(DiffColumns(b.tables.m[ks[i]].columns.m, t.tables.m[ks[i]].columns.m))
  {
    assert ks[..i + 1][..i] == ks[..i];
    hide DiffColumns;
  }

  lemma {:induction false} ChangedStep(b: Index, t: Index, ks: seq<TableKey>, i: nat)
    requires i < |ks| && ks[i] in b.tables.m && ks[i] in t.tables.m
    ensures ChangedTables(b, t, ks[..i + 1]) == ChangedTables(b, t, ks[..i])
      + if SameTable(b.tables.m[ks[i]], t.tables.m[ks[i]]) then []
        else [DiffTable(ks[i], b.tables.m[ks[i]], t.tables.m[ks[i]])]
  {
    assert ks[..i + 1][..i] == ks[..i];
    hide SameTable, DiffTable;
  }

  lemma {:induction false} NothingCounted(b: Index, t: Index, pick: ColumnsDiff -> nat)
    ensures CountColumns(b, t, [], pick) == 0 && ChangedTables(b, t, []) == []
  {
  }

  /** The loop over the tables that both snapshots have. */
  method DiffTables(b: Index, t: Index, ks: seq<TableKey>)
    returns (changed: seq<TableChange>, columnsAdded: nat, columnsRemoved: nat, columnsChanged: nat)
    requires forall k :: k in ks ==> k in b.tables.m && k in t.tables.m
    ensures changed == ChangedTables(b, t, ks)
    ensures changed == [] ==> columnsAdded == columnsRemoved == columnsChanged == 0
    ensures columnsAdded == CountColumns(b, t, ks, Added)
    ensures columnsRemoved == CountColumns(b, t, ks, Removed)
    ensures columnsChanged == CountColumns(b, t, ks, Changed)
  {
    hide ChangedTables, DiffColumns, SameTable, CountColumns;
    changed, columnsAdded, columnsRemoved, columnsChanged := [], 0, 0, 0;
    assert ks[..|ks|] == ks;
    NothingCounted(b, t, Added);
    NothingCounted(b, t, Removed);
    NothingCounted(b, t, Changed);
    for i := 0 to |ks|
      invariant changed == ChangedTables(b, t, ks[..i])
      invariant changed == [] ==> columnsAdded == columnsRemoved == columnsChanged == 0
      invariant columnsAdded == CountColumns(b, t, ks[..i], Added)
      invariant columnsRemoved == CountColumns(b, t, ks[..i], Removed)
      invariant columnsChanged == CountColumns(b, t, ks[..i], Changed)
    {
      var k := ks[i];
      CountStep(b, t, ks, i, Added);
      CountStep(b, t, ks, i, Removed);
      CountStep(b, t, ks, i, Changed);
      ChangedStep(b, t, ks, i);
      var bt, tt := b.tables.m[k], t.tables.m[k];
      var cols := CompareColumns(bt.columns.m, tt.columns.m);
      TableSame(bt, tt);
      if cols.added != [] || cols.removed != [] || cols.changed != [] || bt.pk != tt.pk || bt.comment != tt.comment {
        columnsAdded := columnsAdded + |cols.added|;
        columnsRemoved := columnsRemoved + |cols.removed|;
        columnsChanged := columnsChanged + |cols.changed|;
        var primaryKey := if bt.pk != tt.pk then Some((bt.pk, tt.pk)) else None;
        var comment := if bt.comment != tt.comment then Some((bt.comment, tt.comment)) else None;
        changed := changed + [TableChange(k, cols, primaryKey, comment)];
      }
    }
  }

  // ---------------------------------------------------------------- the diff

  /** What a diff lists, summary aside. */
  ghost predicate DiffOf(b: Index, t: Index, d: SnapshotDiff) {
    && d.baseTableCount == |b.tables.m| && d.targetTableCount == |t.tables.m|
    && d.tablesAdded == TablesAdded(b, t) && d.tablesRemoved == TablesRemoved(b, t)
    && d.tablesChanged == ChangedTables(b, t, Survivors(b, t))
    && d.fksAdded == FksOnlyIn(t, b) && d.fksRemoved == FksOnlyIn(b, t)
  }

  method DiffSnapshots(b: Index, t: Index) returns (d: SnapshotDiff)
    requires KeysValid(b) && KeysValid(t)
    ensures d.summary.hasChanges <==> !NoDifference(b, t)
    ensures DiffOf(b, t, d)
    ensures d.summary.tablesAdded == |d.tablesAdded| && d.summary.tablesRemoved == |d.tablesRemoved|
    ensures d.summary.tablesChanged == |d.tablesChanged|
    ensures d.summary.columnsAdded == CountColumns(b, t, Survivors(b, t), Added)
    ensures d.summary.columnsRemoved == CountColumns(b, t, Survivors(b, t), Removed)
    ensures d.summary.columnsChanged == CountColumns(b, t, Survivors(b, t), Changed)
    ensures d.summary.fksAdded == |d.fksAdded| && d.summary.fksRemoved == |d.fksRemoved|
  {
    hide ChangedTables, NoDifference, CountColumns, FksOnlyIn, TablesAdded, TablesRemoved, Survivors, KeysValid, Sorted;
    TablesMeaning(b, t);
    var tablesAdded, tablesRemoved := TablesAdded(b, t), TablesRemoved(b, t);
    var changed, columnsAdded, columnsRemoved, columnsChanged := DiffTables(b, t, Survivors(b, t));
    var fksAdded, fksRemoved := FksOnlyIn(t, b), FksOnlyIn(b, t);
    var any := tablesAdded != [] || tablesRemoved != [] || changed != [] || columnsAdded != 0 || columnsRemoved != 0
               || columnsChanged != 0 || fksAdded != [] || fksRemoved != [];
    DifferenceParts(b, t);
    d := SnapshotDiff(|b.tables.m|, |t.tables.m|, tablesAdded, tablesRemoved, changed, fksAdded, fksRemoved,
      Summary(|tablesAdded|, |tablesRemoved|, |changed|, columnsAdded, columnsRemoved, columnsChanged,
              |fksAdded|, |fksRemoved|, any));
  }

  lemma {:induction false} NoneOnly(a: Index, b: Index)
    requires KeysValid(a)
    ensures FksOnlyIn(a, b) == [] <==> a.fks.m.Keys <= b.fks.m.Keys
  {
    hide FksOnlyIn, KeysValid;
    forall f ensures (exists x :: x in FksOnlyIn(a, b) && x.signature == f) <==> f in a.fks.m && f !in b.fks.m {
      FksOnlyMeaning(a, b, f);
    }
    if FksOnlyIn(a, b) != [] {
      var x := FksOnlyIn(a, b)[0];
      assert x in FksOnlyIn(a, b) && x.signature in a.fks.m && x.signature !in b.fks.m;
    }
  }

  lemma {:induction false} DifferenceParts(b: Index, t: Index)
    requires KeysValid(b) && KeysValid(t)
    ensures NoDifference(b, t) <==>
      && TablesAdded(b, t) == [] && TablesRemoved(b, t) == [] && ChangedTables(b, t, Survivors(b, t)) == []
      && FksOnlyIn(t, b) == [] && FksOnlyIn(b, t) == []
  {
    hide SameTable, DiffTable, FksOnlyIn, TablesAdded, TablesRemoved, Survivors, KeysValid, Sorted, ChangedTables;
    TablesMeaning(b, t);
    NoneOnly(b, t);
    NoneOnly(t, b);
    var changed := ChangedTables(b, t, Survivors(b, t));
    if changed == [] {
      forall k | k in b.tables.m && k in t.tables.m ensures SameTable(b.tables.m[k], t.tables.m[k]) {
        ChangedMeaning(b, t, Survivors(b, t), DiffTable(k, b.tables.m[k], t.tables.m[k]));
        TableOfChange(k, b.tables.m[k], t.tables.m[k]);
      }
    } else {
      var x := changed[0];
      ChangedMeaning(b, t, Survivors(b, t), x);
    }
    assert TablesAdded(b, t) == [] <==> t.tables.m.Keys <= b.tables.m.Keys by {
      if TablesAdded(b, t) != [] { assert TablesAdded(b, t)[0] in TablesAdded(b, t); }
    }
    assert TablesRemoved(b, t) == [] <==> b.tables.m.Keys <= t.tables.m.Keys by {
      if TablesRemoved(b, t) != [] { assert TablesRemoved(b, t)[0] in TablesRemoved(b, t); }
    }
  }

  lemma {:induction false} TableOfChange(k: TableKey, bt: Table, tt: Table)
    ensures DiffTable(k, bt, tt).table == k
  {
  }

  // ---------------------------------------------------------------- what the diff determines

  /** Alike in the tables and columns that the base does not have. */
  ghost predicate AddedAlike(b: Index, t: Index, u: Index) {
    forall k :: k in t.tables.m && k in u.tables.m ==>
      if k !in b.tables.m then SameTable(t.tables.m[k], u.tables.m[k])
      else AddedColumnsAlike(b.tables.m[k], t.tables.m[k], u.tables.m[k])
  }

  ghost predicate AddedColumnsAlike(bt: Table, tt: Table, ut: Table) {
    forall c :: c in tt.columns.m && c in ut.columns.m && c !in bt.columns.m ==> tt.columns.m[c] == ut.columns.m[c]
  }

  lemma {:induction false} SameRest<T>(b: set<T>, t: set<T>, u: set<T>)
    requires t - b == u - b && b - t == b - u
    ensures t == u
  {
    forall x ensures x in t <==> x in u {
      assert x in t - b <==> x in u - b;
      assert x in b - t <==> x in b - u;
    }
  }

  lemma {:induction false} SameSorted(a: set<string>, b: set<string>)
    requires SortedStrings(a) == SortedStrings(b)
    ensures a == b
  {
    assert forall x :: x in a <==> x in SortedStrings(a);
    assert forall x :: x in b <==> x in SortedStrings(b);
  }

  lemma {:induction false} SurvivingColumn(bt: map<string, Column>, tt: map<string, Column>, ut: map<string, Column>,
    c: string)
    requires DiffColumns(bt, tt).changed == DiffColumns(bt, ut).changed && c in bt && c in tt && c in ut
    ensures tt[c] == ut[c]
  {
    hide SortedStrings;
    var x, y := ColumnChange(c, bt[c], tt[c]), ColumnChange(c, bt[c], ut[c]);
    ChangesMeaning(bt, tt, SortedStrings(bt.Keys * tt.Keys), x);
    ChangesMeaning(bt, ut, SortedStrings(bt.Keys * ut.Keys), x);
    ChangesMeaning(bt, tt, SortedStrings(bt.Keys * tt.Keys), y);
    ChangesMeaning(bt, ut, SortedStrings(bt.Keys * ut.Keys), y);
    hide ChangesIn;
  }

  lemma {:induction false} TableChangeDetermines(k: TableKey, bt: Table, tt: Table, ut: Table)
    requires DiffTable(k, bt, tt) == DiffTable(k, bt, ut) && AddedColumnsAlike(bt, tt, ut)
    ensures SameTable(tt, ut)
  {
    hide DiffColumns, AddedColumnsAlike;
    var bm, tm, um := bt.columns.m, tt.columns.m, ut.columns.m;
    assert DiffColumns(bm, tm) == DiffColumns(bm, um);
    SameColumnNames(bm, tm, um);
    forall c | c in tm && c in um ensures tm[c] == um[c] {
      if c in bm {
        SurvivingColumn(bm, tm, um, c);
      } else {
        AddedColumn(bt, tt, ut, c);
      }
    }
  }

  lemma {:induction false} AddedColumn(bt: Table, tt: Table, ut: Table, c: string)
    requires AddedColumnsAlike(bt, tt, ut) && c in tt.columns.m && c in ut.columns.m && c !in bt.columns.m
    ensures tt.columns.m[c] == ut.columns.m[c]
  {
  }

  lemma {:induction false} SameColumnNames(bm: map<string, Column>, tm: map<string, Column>, um: map<string, Column>)
    requires DiffColumns(bm, tm) == DiffColumns(bm, um)
    ensures tm.Keys == um.Keys
  {
    hide SortedStrings, ChangesIn;
    SameSorted(tm.Keys - bm.Keys, um.Keys - bm.Keys);
    SameSorted(bm.Keys - tm.Keys, bm.Keys - um.Keys);
    SameRest(bm.Keys, tm.Keys, um.Keys);
  }

  /** A diff says everything but what added tables and columns hold: with that, it determines the target. */
  lemma {:induction false} DiffDetermines(b: Index, t: Index, u: Index, d: SnapshotDiff)
    requires KeysValid(b) && KeysValid(t) && KeysValid(u)
    requires DiffOf(b, t, d) && DiffOf(b, u, d) && AddedAlike(b, t, u)
    ensures NoDifference(t, u)
  {
    hide SameTable, DiffTable, TablesAdded, TablesRemoved, Survivors, FksOnlyIn, ChangedTables, KeysValid, Sorted,
      AddedColumnsAlike;
    TablesMeaning(b, t);
    TablesMeaning(b, u);
    TablesDetermined(b, t, u);
    FksDetermined(b, t, u);
    forall k | k in t.tables.m ensures SameTable(t.tables.m[k], u.tables.m[k]) {
      if k in b.tables.m {
        SurvivorDetermined(b, t, u, k);
      }
    }
  }

  lemma {:induction false} TablesDetermined(b: Index, t: Index, u: Index)
    requires KeysValid(b) && KeysValid(t) && KeysValid(u)
    requires TablesAdded(b, t) == TablesAdded(b, u) && TablesRemoved(b, t) == TablesRemoved(b, u)
    ensures t.tables.m.Keys == u.tables.m.Keys
  {
    hide TablesAdded, TablesRemoved, Survivors, KeysValid, Sorted;
    TablesMeaning(b, t);
    TablesMeaning(b, u);
    SameRest(b.tables.m.Keys, t.tables.m.Keys, u.tables.m.Keys);
  }

  lemma {:induction false} FksDetermined(b: Index, t: Index, u: Index)
    requires KeysValid(b) && KeysValid(t) && KeysValid(u)
    requires FksOnlyIn(t, b) == FksOnlyIn(u, b) && FksOnlyIn(b, t) == FksOnlyIn(b, u)
    ensures t.fks.m.Keys == u.fks.m.Keys
  {
    hide FksOnlyIn, KeysValid;
    forall f ensures f in t.fks.m <==> f in u.fks.m {
      FksOnlyMeaning(t, b, f);
      FksOnlyMeaning(u, b, f);
      FksOnlyMeaning(b, t, f);
      FksOnlyMeaning(b, u, f);
    }
  }

  lemma {:induction false} SurvivorDetermined(b: Index, t: Index, u: Index, k: TableKey)
    requires KeysValid(b) && KeysValid(t) && KeysValid(u) && AddedAlike(b, t, u)
    requires k in b.tables.m && k in t.tables.m && k in u.tables.m
    requires ChangedTables(b, t, Survivors(b, t)) == ChangedTables(b, u, Survivors(b, u))
    ensures SameTable(t.tables.m[k], u.tables.m[k])
  {
    hide DiffColumns, Survivors, KeysValid, Sorted, ChangedTables, AddedColumnsAlike;
    var bt, tt, ut := b.tables.m[k], t.tables.m[k], u.tables.m[k];
    TablesMeaning(b, t);
    TablesMeaning(b, u);
    ChangedMeaning(b, t, Survivors(b, t), DiffTable(k, bt, tt));
    ChangedMeaning(b, u, Survivors(b, u), DiffTable(k, bt, tt));
    ChangedMeaning(b, t, Survivors(b, t), DiffTable(k, bt, ut));
    ChangedMeaning(b, u, Survivors(b, u), DiffTable(k, bt, ut));
    if !SameTable(bt, tt) || !SameTable(bt, ut) {
      TableChangeDetermines(k, bt, tt, ut);
    }
  }
}
