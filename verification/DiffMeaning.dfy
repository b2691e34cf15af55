/**
 What the diff of backend/app/diff/schema_diff.py lists, said of the two snapshots alone: which tables, columns and
 foreign keys, with which old and new values, in which order, and how many.
 */
module DiffMeaning {
  import opened Dicts
  import opened Lists
  import opened Orders
  import opened SchemaDiff
  import opened SnapshotDiffs
  import opened Snapshots
  import opened Text

  // ---------------------------------------------------------------- the columns of a table

  /** Without repetition, in the order of strings. */
  ghost predicate InOrder(names: seq<string>) {
    Distinct(names) && forall i, j :: 0 <= i < j < |names| ==> StringLe(names[i], names[j])
  }

  /** The names that only the first of two tables has. */
  ghost predicate OnlyIn(m: map<string, Column>, other: map<string, Column>, names: seq<string>) {
    InOrder(names) && forall c :: c in names <==> c in m && c !in other
  }

  /** The columns that both tables have, with what they were and what they will be if these differ. */
  ghost predicate ChangesFromTo(bt: map<string, Column>, tt: map<string, Column>, changed: seq<ColumnChange>) {
    && (forall i, j :: 0 <= i < j < |changed| ==>
          changed[i].name != changed[j].name && StringLe(changed[i].name, changed[j].name))
    && forall x :: x in changed <==>
      x.name in bt && x.name in tt && x.was == bt[x.name] && x.to == tt[x.name] && x.was != x.to
  }

  /** What is said of the columns of a table. */
  ghost predicate ColumnsSaid(bt: map<string, Column>, tt: map<string, Column>, d: ColumnsDiff) {
    OnlyIn(tt, bt, d.added) && OnlyIn(bt, tt, d.removed) && ChangesFromTo(bt, tt, d.changed)
  }

  lemma {:induction false} SortedInOrder(s: set<string>)
    ensures InOrder(SortedStrings(s)) && forall c :: c in SortedStrings(s) <==> c in s
  {
    SortedStringsSorted(s);
    hide StringLe, SortedStrings;
  }

  lemma {:induction false} ChangesInOrder(bt: map<string, Column>, tt: map<string, Column>, names: seq<string>)
    requires InOrder(names)
    ensures var changes := ChangesIn(bt, tt, names);
      forall i, j :: 0 <= i < j < |changes| ==>
        changes[i].name != changes[j].name && StringLe(changes[i].name, changes[j].name)
  {
    hide StringLe;
    if names != [] {
      var n := |names| - 1;
      ChangesInOrder(bt, tt, names[..n]);
      var before := ChangesIn(bt, tt, names[..n]);
      forall i | 0 <= i < |before| ensures before[i].name != names[n] && StringLe(before[i].name, names[n]) {
        ChangesMeaning(bt, tt, names[..n], before[i]);
        assert before[i] in before;
        var k :| 0 <= k < n && names[..n][k] == before[i].name;
        assert names[k] == before[i].name;
      }
    }
  }

  lemma {:induction false} ChangedAreSaid(bt: map<string, Column>, tt: map<string, Column>, both: seq<string>)
    requires InOrder(both) && forall c :: c in both <==> c in bt && c in tt
    ensures ChangesFromTo(bt, tt, ChangesIn(bt, tt, both))
  {
    hide StringLe, ChangesIn, InOrder;
    ChangesInOrder(bt, tt, both);
    forall x ensures x in ChangesIn(bt, tt, both) <==>
      (x.name in bt && x.name in tt && x.was == bt[x.name] && x.to == tt[x.name] && x.was != x.to)
    {
      ChangesMeaning(bt, tt, both, x);
    }
  }

  lemma {:induction false} ColumnsAreSaid(bt: map<string, Column>, tt: map<string, Column>)
    ensures ColumnsSaid(bt, tt, DiffColumns(bt, tt))
  {
    hide OnlyIn, ChangesFromTo, SortedStrings, ChangesIn, InOrder;
    OnlySaid(tt, bt);
    OnlySaid(bt, tt);
    SortedInOrder(bt.Keys * tt.Keys);
    ChangedAreSaid(bt, tt, SortedStrings(bt.Keys * tt.Keys));
  }

  lemma {:induction false} OnlySaid(m: map<string, Column>, other: map<string, Column>)
    ensures OnlyIn(m, other, SortedStrings(m.Keys - other.Keys))
  {
    hide InOrder, SortedStrings;
    SortedInOrder(m.Keys - other.Keys);
  }

  // ---------------------------------------------------------------- tables

  /** The name of a table as it is shown, and sorted by. */
  function NameOf(k: TableKey): string {
    if k.schemaName == "" then k.relationName else k.schemaName + "." + k.relationName
  }

  ghost predicate TablesInOrder(ks: seq<TableKey>) {
    Distinct(ks) && forall i, j :: 0 <= i < j < |ks| ==> StringLe(NameOf(ks[i]), NameOf(ks[j]))
  }

  /** The table is in both snapshots and differs in its columns, its key or its comment. */
  ghost predicate Differs(b: Index, t: Index, k: TableKey) {
    && k in b.tables.m && k in t.tables.m
    && (b.tables.m[k].columns.m != t.tables.m[k].columns.m || b.tables.m[k].pk != t.tables.m[k].pk
        || b.tables.m[k].comment != t.tables.m[k].comment)
  }

  /** The entry of a table that differs: what was and what will be. */
  ghost predicate TableSaid(b: Index, t: Index, x: TableChange) {
    && Differs(b, t, x.table)
    && var was, to := b.tables.m[x.table], t.tables.m[x.table];
      && ColumnsSaid(was.columns.m, to.columns.m, x.columns)
      && x.primaryKey == (if was.pk == to.pk then None else Some((was.pk, to.pk)))
      && x.comment == (if was.comment == to.comment then None else Some((was.comment, to.comment)))
  }

  /** One entry for each table that differs, in the order of their names. */
  ghost predicate ChangesSaid(b: Index, t: Index, changes: seq<TableChange>) {
    && (forall i :: 0 <= i < |changes| ==> TableSaid(b, t, changes[i]))
    && (forall i, j :: 0 <= i < j < |changes| ==>
          changes[i].table != changes[j].table && StringLe(NameOf(changes[i].table), NameOf(changes[j].table)))
    && forall k :: Differs(b, t, k) ==> exists i :: 0 <= i < |changes| && changes[i].table == k
  }

  lemma {:induction false} AmongOnce<K>(keys: seq<K>, others: set<K>, wanted: bool)
    requires Distinct(keys)
    ensures Distinct(Among(keys, others, wanted))
  {
    if keys != [] {
      AmongOnce(keys[1..], others, wanted);
      AmongMeaning(keys[1..], others, wanted);
      assert keys[0] !in keys[1..];
    }
  }

  lemma {:induction false} PickedInOrder(keys: seq<TableKey>, others: set<TableKey>, wanted: bool)
    requires Distinct(keys)
    ensures TablesInOrder(Picked(KeyLe, keys, others, wanted))
  {
    KeysOrdered();
    AmongOnce(keys, others, wanted);
    SortDistinct(KeyLe, Among(keys, others, wanted));
    SortSorted(KeyLe, Among(keys, others, wanted));
    hide StringLe, Sort, Among, Distinct;
    var ks := Picked(KeyLe, keys, others, wanted);
    forall i, j | 0 <= i < j < |ks| ensures KeyLe(ks[i], ks[j]) {
    }
  }

  lemma {:induction false} SameTableIff(b: Index, t: Index, k: TableKey)
    requires k in b.tables.m && k in t.tables.m
    ensures Differs(b, t, k) <==> !SameTable(b.tables.m[k], t.tables.m[k])
  {
  }

  lemma {:induction false} EntrySaid(b: Index, t: Index, k: TableKey)
    requires Differs(b, t, k)
    ensures TableSaid(b, t, DiffTable(k, b.tables.m[k], t.tables.m[k]))
  {
    ColumnsAreSaid(b.tables.m[k].columns.m, t.tables.m[k].columns.m);
    hide ColumnsSaid, DiffColumns;
  }

  lemma {:induction false} ChangedInOrder(b: Index, t: Index, ks: seq<TableKey>)
    requires TablesInOrder(ks)
    ensures var changes := ChangedTables(b, t, ks);
      forall i, j :: 0 <= i < j < |changes| ==>
        changes[i].table != changes[j].table && StringLe(NameOf(changes[i].table), NameOf(changes[j].table))
  {
    hide StringLe, NameOf, SameTable, DiffColumns;
    if ks != [] {
      var n := |ks| - 1;
      ChangedInOrder(b, t, ks[..n]);
      var before := ChangedTables(b, t, ks[..n]);
      forall i | 0 <= i < |before|
        ensures before[i].table != ks[n] && StringLe(NameOf(before[i].table), NameOf(ks[n]))
      {
        ChangedMeaning(b, t, ks[..n], before[i]);
        assert before[i] in before;
        var k :| 0 <= k < n && ks[..n][k] == before[i].table;
        assert ks[k] == before[i].table;
      }
    }
  }

  lemma {:induction false} ChangesAreSaid(b: Index, t: Index)
    requires KeysValid(b) && KeysValid(t)
    ensures ChangesSaid(b, t, ChangedTables(b, t, Survivors(b, t)))
  {
    var ks := Survivors(b, t);
    TablesMeaning(b, t);
    PickedInOrder(b.tables.keys, t.tables.m.Keys, true);
    ChangedInOrder(b, t, ks);
    hide StringLe, NameOf, ChangedTables, Picked, TableSaid, DiffTable, SameTable, Sorted, TablesInOrder;
    var changes := ChangedTables(b, t, ks);
    forall i | 0 <= i < |changes| ensures TableSaid(b, t, changes[i]) {
      ChangedMeaning(b, t, ks, changes[i]);
      assert changes[i] in changes;
      SameTableIff(b, t, changes[i].table);
      EntrySaid(b, t, changes[i].table);
    }
    forall k | Differs(b, t, k) ensures exists i :: 0 <= i < |changes| && changes[i].table == k {
      SameTableIff(b, t, k);
      var x := DiffTable(k, b.tables.m[k], t.tables.m[k]);
      assert x.table == k by { hide DiffColumns; EntryTable(k, b.tables.m[k], t.tables.m[k]); }
      ChangedMeaning(b, t, ks, x);
    }
  }

  lemma {:induction false} EntryTable(k: TableKey, bt: Table, tt: Table)
    ensures DiffTable(k, bt, tt).table == k
  {
  }

  // ---------------------------------------------------------------- foreign keys

  /** A foreign key as it is shown, and sorted by. */
  function ShownAs(f: FkSignature): string {
    NameOf(f.child) + "(" + Join(f.childColumns, ",") + ")->"
    + NameOf(f.parent) + "(" + Join(f.parentColumns, ",") + ")"
  }

  /** The foreign keys that only the first snapshot has, with their names there, in the order shown. */
  ghost predicate FksSaid(a: Index, b: Index, fks: seq<ForeignKey>) {
    && (forall i, j :: 0 <= i < j < |fks| ==>
          fks[i].signature != fks[j].signature && StringLe(ShownAs(fks[i].signature), ShownAs(fks[j].signature)))
    && forall x :: x in fks <==> x.signature in a.fks.m && x.signature !in b.fks.m && x.name == a.fks.m[x.signature]
  }

  lemma {:induction false} NamedAre(a: Index, fs: seq<FkSignature>)
    requires forall f :: f in fs ==> f in a.fks.m
    ensures forall i :: 0 <= i < |fs| ==> WithNames(a, fs)[i] == ForeignKey(fs[i], a.fks.m[fs[i]])
  {
    if fs != [] {
      NamedAre(a, fs[1..]);
    }
  }

  lemma {:induction false} SignatureOrder(f: FkSignature, g: FkSignature)
    ensures SignatureLe(f, g) <==> StringLe(ShownAs(f), ShownAs(g))
  {
    hide StringLe;
  }

  lemma {:induction false} PickedFks(a: Index, b: Index)
    requires KeysValid(a)
    ensures var fs := Picked(SignatureLe, a.fks.keys, b.fks.m.Keys, false);
      && Distinct(fs) && (forall f :: f in fs <==> f in a.fks.m && f !in b.fks.m)
      && forall i, j :: 0 <= i < j < |fs| ==> StringLe(ShownAs(fs[i]), ShownAs(fs[j]))
  {
    KeysOrdered();
    KeysMeaning(a);
    AmongOnce(a.fks.keys, b.fks.m.Keys, false);
    AmongMeaning(a.fks.keys, b.fks.m.Keys, false);
    SortDistinct(SignatureLe, Among(a.fks.keys, b.fks.m.Keys, false));
    SortSorted(SignatureLe, Among(a.fks.keys, b.fks.m.Keys, false));
    hide StringLe, Sort, Among, ShownAs, SignatureLe, Distinct;
    var fs := Picked(SignatureLe, a.fks.keys, b.fks.m.Keys, false);
    forall i, j | 0 <= i < j < |fs| ensures StringLe(ShownAs(fs[i]), ShownAs(fs[j])) {
      SignatureOrder(fs[i], fs[j]);
    }
  }

  lemma {:induction false} FksAreSaid(a: Index, b: Index)
    requires KeysValid(a)
    ensures FksSaid(a, b, FksOnlyIn(a, b))
  {
    hide StringLe, ShownAs, Picked, WithNames, KeysValid;
    PickedFks(a, b);
    var fs := Picked(SignatureLe, a.fks.keys, b.fks.m.Keys, false);
    NamedAre(a, fs);
    var fks := WithNames(a, fs);
    forall x ensures x in fks <==>
      (x.signature in a.fks.m && x.signature !in b.fks.m && x.name == a.fks.m[x.signature])
    {
      if x.signature in a.fks.m && x.signature !in b.fks.m && x.name == a.fks.m[x.signature] {
        var i :| 0 <= i < |fs| && fs[i] == x.signature;
        assert fks[i] == x;
      }
      if x in fks {
        var i :| 0 <= i < |fks| && fks[i] == x;
        assert fs[i] in fs;
      }
    }
  }

  // ---------------------------------------------------------------- counts

  /** Columns of tables of both snapshots, picked by their name and their tables. */
  ghost function ColumnsWith(b: Index, t: Index, ks: set<TableKey>, pick: (Table, Table) -> set<string>):
    set<(TableKey, string)>
  {
    set k, c | k in ks && k in b.tables.m && k in t.tables.m && c in pick(b.tables.m[k], t.tables.m[k]) :: (k, c)
  }

  function NewOnes(bt: Table, tt: Table): set<string> {
    tt.columns.m.Keys - bt.columns.m.Keys
  }

  function GoneOnes(bt: Table, tt: Table): set<string> {
    bt.columns.m.Keys - tt.columns.m.Keys
  }

  function ChangedOnes(bt: Table, tt: Table): set<string> {
    set c | c in bt.columns.m && c in tt.columns.m && bt.columns.m[c] != tt.columns.m[c]
  }

  lemma {:induction false} PairSize(k: TableKey, s: set<string>)
    ensures |set c | c in s :: (k, c)| == |s|
  {
    if s == {} {
      assert (set c | c in s :: (k, c)) == {};
    } else {
      var x :| x in s;
      PairSize(k, s - {x});
      assert (set c | c in s :: (k, c)) == (set c | c in s - {x} :: (k, c)) + {(k, x)};
    }
  }

  lemma {:induction false} ChangedSize(bt: map<string, Column>, tt: map<string, Column>, names: seq<string>)
    requires Distinct(names)
    ensures |ChangesIn(bt, tt, names)| == |set c | c in names && c in bt && c in tt && bt[c] != tt[c]|
  {
    if names != [] {
      var init, n := names[..|names| - 1], names[|names| - 1];
      ChangedSize(bt, tt, init);
      OneMoreName(bt, tt, init, n);
      assert names == init + [n] && n !in init;
    }
  }

  lemma {:induction false} OneMoreName(bt: map<string, Column>, tt: map<string, Column>, init: seq<string>, n: string)
    ensures var before := set c | c in init && c in bt && c in tt && bt[c] != tt[c];
      (set c | c in init + [n] && c in bt && c in tt && bt[c] != tt[c]) ==
      if n in bt && n in tt && bt[n] != tt[n] then before + {n} else before
  {
  }

  lemma {:induction false} ColumnsDiffSize(bt: Table, tt: Table)
    ensures var d := DiffColumns(bt.columns.m, tt.columns.m);
      Added(d) == |NewOnes(bt, tt)| && Removed(d) == |GoneOnes(bt, tt)| && Changed(d) == |ChangedOnes(bt, tt)|
  {
    hide SortedStrings, Distinct, Sorted, StringLe, ChangesIn;
    var both := SortedStrings(bt.columns.m.Keys * tt.columns.m.Keys);
    SortedStringsSorted(bt.columns.m.Keys * tt.columns.m.Keys);
    ChangedSize(bt.columns.m, tt.columns.m, both);
    assert ChangedOnes(bt, tt) ==
      set c | c in both && c in bt.columns.m && c in tt.columns.m && bt.columns.m[c] != tt.columns.m[c];
  }

  lemma {:induction false} OneMoreTable(b: Index, t: Index, ks: set<TableKey>, k: TableKey,
    pick: (Table, Table) -> set<string>)
    requires k !in ks
    ensures |ColumnsWith(b, t, ks + {k}, pick)| == |ColumnsWith(b, t, ks, pick)|
      + if k in b.tables.m && k in t.tables.m then |pick(b.tables.m[k], t.tables.m[k])| else 0
  {
    var before, all := ColumnsWith(b, t, ks, pick), ColumnsWith(b, t, ks + {k}, pick);
    if k in b.tables.m && k in t.tables.m {
      var s := pick(b.tables.m[k], t.tables.m[k]);
      PairSize(k, s);
      assert all == before + set c | c in s :: (k, c);
    } else {
      assert all == before;
    }
  }

  lemma {:induction false} CountIsSize(b: Index, t: Index, ks: seq<TableKey>, heading: ColumnsDiff -> nat,
                                       pick: (Table, Table) -> set<string>)
    requires Distinct(ks)
    requires forall bt: Table, tt: Table :: heading(DiffColumns(bt.columns.m, tt.columns.m)) == |pick(bt, tt)|
    ensures CountColumns(b, t, ks, heading) == |ColumnsWith(b, t, (set k | k in ks), pick)|
  {
    hide DiffColumns, ColumnsWith;
    if ks == [] {
      NoColumns(b, t, pick);
      assert (set k | k in ks) == {};
    } else {
      var init, k := ks[..|ks| - 1], ks[|ks| - 1];
      CountIsSize(b, t, init, heading, pick);
      assert ks == init + [k] && k !in init;
      OneMoreTable(b, t, (set x | x in init), k, pick);
      assert (set x | x in ks) == (set x | x in init) + {k};
    }
  }

  lemma {:induction false} NoColumns(b: Index, t: Index, pick: (Table, Table) -> set<string>)
    ensures ColumnsWith(b, t, {}, pick) == {}
  {
  }

  /** What the summary counts. */
  ghost predicate SummarySaid(b: Index, t: Index, s: Summary) {
    && s.tablesAdded == |t.tables.m.Keys - b.tables.m.Keys| && s.tablesRemoved == |b.tables.m.Keys - t.tables.m.Keys|
    && s.tablesChanged == |set k | k in b.tables.m && Differs(b, t, k)|
    && s.columnsAdded == |ColumnsWith(b, t, b.tables.m.Keys, NewOnes)|
    && s.columnsRemoved == |ColumnsWith(b, t, b.tables.m.Keys, GoneOnes)|
    && s.columnsChanged == |ColumnsWith(b, t, b.tables.m.Keys, ChangedOnes)|
    && s.fksAdded == |t.fks.m.Keys - b.fks.m.Keys| && s.fksRemoved == |b.fks.m.Keys - t.fks.m.Keys|
  }

  lemma {:induction false} DistinctSize<K>(ks: seq<K>)
    requires Distinct(ks)
    ensures |set k | k in ks| == |ks|
  {
    if ks != [] {
      var init, k := ks[..|ks| - 1], ks[|ks| - 1];
      DistinctSize(init);
      assert ks == init + [k] && k !in init;
      assert (set x | x in ks) == (set x | x in init) + {k};
    }
  }

  lemma {:induction false} ListSize<K>(ks: seq<K>, s: set<K>)
    requires Distinct(ks) && forall k :: k in ks <==> k in s
    ensures |ks| == |s|
  {
    DistinctSize(ks);
    assert (set k | k in ks) == s;
  }

  lemma {:induction false} ColumnCounts(b: Index, t: Index)
    requires KeysValid(b) && KeysValid(t)
    ensures CountColumns(b, t, Survivors(b, t), Added) == |ColumnsWith(b, t, b.tables.m.Keys, NewOnes)|
    ensures CountColumns(b, t, Survivors(b, t), Removed) == |ColumnsWith(b, t, b.tables.m.Keys, GoneOnes)|
    ensures CountColumns(b, t, Survivors(b, t), Changed) == |ColumnsWith(b, t, b.tables.m.Keys, ChangedOnes)|
  {
    var ks := Survivors(b, t);
    TablesMeaning(b, t);
    PickedInOrder(b.tables.keys, t.tables.m.Keys, true);
    forall bt: Table, tt: Table
      ensures Added(DiffColumns(bt.columns.m, tt.columns.m)) == |NewOnes(bt, tt)|
      ensures Removed(DiffColumns(bt.columns.m, tt.columns.m)) == |GoneOnes(bt, tt)|
      ensures Changed(DiffColumns(bt.columns.m, tt.columns.m)) == |ChangedOnes(bt, tt)|
    {
      ColumnsDiffSize(bt, tt);
    }
    hide CountColumns, DiffColumns, Added, Removed, Changed, NewOnes, GoneOnes, ChangedOnes, Picked, Sorted, StringLe;
    CountIsSize(b, t, ks, Added, NewOnes);
    CountIsSize(b, t, ks, Removed, GoneOnes);
    CountIsSize(b, t, ks, Changed, ChangedOnes);
    OnlySurvivors(b, t, ks, NewOnes);
    OnlySurvivors(b, t, ks, GoneOnes);
    OnlySurvivors(b, t, ks, ChangedOnes);
  }

  lemma {:induction false} OnlySurvivors(b: Index, t: Index, ks: seq<TableKey>, pick: (Table, Table) -> set<string>)
    requires forall k :: k in ks <==> k in b.tables.m && k in t.tables.m
    ensures ColumnsWith(b, t, (set k | k in ks), pick) == ColumnsWith(b, t, b.tables.m.Keys, pick)
  {
  }

  /** What is said of the whole diff. */
  ghost predicate DiffSaid(b: Index, t: Index, d: SnapshotDiff) {
    && TablesInOrder(d.tablesAdded) && (forall k :: k in d.tablesAdded <==> k !in b.tables.m && k in t.tables.m)
    && TablesInOrder(d.tablesRemoved) && (forall k :: k in d.tablesRemoved <==> k in b.tables.m && k !in t.tables.m)
    && ChangesSaid(b, t, d.tablesChanged) && FksSaid(t, b, d.fksAdded) && FksSaid(b, t, d.fksRemoved)
  }

  /** The lists of the diff, and their lengths. */
  lemma {:induction false} DiffIs(b: Index, t: Index, d: SnapshotDiff)
    requires KeysValid(b) && KeysValid(t) && DiffOf(b, t, d)
    ensures DiffSaid(b, t, d)
  {
    hide StringLe, Picked, ChangedTables, Survivors, FksOnlyIn, TablesInOrder, ChangesSaid, FksSaid, Sorted;
    TablesMeaning(b, t);
    PickedInOrder(t.tables.keys, b.tables.m.Keys, false);
    PickedInOrder(b.tables.keys, t.tables.m.Keys, false);
    ChangesAreSaid(b, t);
    FksAreSaid(t, b);
    FksAreSaid(b, t);
  }

  /** How the summary counts, as the diff does it. */
  ghost predicate Counted(b: Index, t: Index, d: SnapshotDiff) {
    && d.summary.tablesAdded == |d.tablesAdded| && d.summary.tablesRemoved == |d.tablesRemoved|
    && d.summary.tablesChanged == |d.tablesChanged|
    && d.summary.columnsAdded == CountColumns(b, t, Survivors(b, t), Added)
    && d.summary.columnsRemoved == CountColumns(b, t, Survivors(b, t), Removed)
    && d.summary.columnsChanged == CountColumns(b, t, Survivors(b, t), Changed)
    && d.summary.fksAdded == |d.fksAdded| && d.summary.fksRemoved == |d.fksRemoved|
  }

  lemma {:induction false} TableNamesSize(changes: seq<TableChange>)
    requires forall i, j :: 0 <= i < j < |changes| ==> changes[i].table != changes[j].table
    ensures |set x | x in changes :: x.table| == |changes|
  {
    if changes != [] {
      var init, x := changes[..|changes| - 1], changes[|changes| - 1];
      TableNamesSize(init);
      assert changes == init + [x];
      assert (set y | y in changes :: y.table) == (set y | y in init :: y.table) + {x.table};
      assert x.table !in (set y | y in init :: y.table);
    }
  }

  lemma {:induction false} ChangesSize(b: Index, t: Index, changes: seq<TableChange>)
    requires ChangesSaid(b, t, changes)
    ensures |changes| == |set k | k in b.tables.m && Differs(b, t, k)|
  {
    hide StringLe, NameOf, ColumnsSaid;
    TableNamesSize(changes);
    var names, due := set x | x in changes :: x.table, set k | k in b.tables.m && Differs(b, t, k);
    forall k ensures k in names <==> k in due {
      if k in due {
        var i :| 0 <= i < |changes| && changes[i].table == k;
        assert changes[i] in changes;
      }
      if k in names {
        var x :| x in changes && x.table == k;
        assert TableSaid(b, t, x);
      }
    }
    assert names == due;
  }

  lemma {:induction false} SignaturesSize(fks: seq<ForeignKey>)
    requires forall i, j :: 0 <= i < j < |fks| ==> fks[i].signature != fks[j].signature
    ensures |set x | x in fks :: x.signature| == |fks|
  {
    if fks != [] {
      var init, x := fks[..|fks| - 1], fks[|fks| - 1];
      SignaturesSize(init);
      assert fks == init + [x];
      assert (set y | y in fks :: y.signature) == (set y | y in init :: y.signature) + {x.signature};
      assert x.signature !in (set y | y in init :: y.signature);
    }
  }

  lemma {:induction false} FksSize(a: Index, b: Index, fks: seq<ForeignKey>)
    requires FksSaid(a, b, fks)
    ensures |fks| == |a.fks.m.Keys - b.fks.m.Keys|
  {
    hide StringLe, ShownAs;
    SignaturesSize(fks);
    var names, due := set x | x in fks :: x.signature, a.fks.m.Keys - b.fks.m.Keys;
    forall f ensures f in names <==> f in due {
      if f in due {
        assert ForeignKey(f, a.fks.m[f]) in fks;
      }
    }
    assert names == due;
  }

  /** The numbers of the summary are those of the tables, columns and foreign keys that differ. */
  lemma {:induction false} SummaryIs(b: Index, t: Index, d: SnapshotDiff)
    requires KeysValid(b) && KeysValid(t) && DiffOf(b, t, d) && Counted(b, t, d)
    ensures SummarySaid(b, t, d.summary)
  {
    hide StringLe, Picked, ChangedTables, Survivors, FksOnlyIn, ChangesSaid, FksSaid, Sorted, ColumnsWith, CountColumns,
      Differs, NameOf, KeysValid;
    DiffIs(b, t, d);
    ColumnCounts(b, t);
    ListSize(d.tablesAdded, t.tables.m.Keys - b.tables.m.Keys);
    ListSize(d.tablesRemoved, b.tables.m.Keys - t.tables.m.Keys);
    ChangesSize(b, t, d.tablesChanged);
    FksSize(t, b, d.fksAdded);
    FksSize(b, t, d.fksRemoved);
  }
}
