/**
 The main results about the migration generator: the state that a whole run reaches, and exactly when
 the run is accepted by the database and ends in the target schema.
 */
module MigrationTheorem {
  import opened Dicts
  import opened Lists
  import opened Orders
  import opened Snapshots
  import opened Migration
  import opened MigrationRuns

  /** A database that holds the base snapshot; it may have more schemas than the snapshot has tables in. */
  ghost function Start(d: Dialect, base: Index, schemas: set<string>): Db {
    Db(schemas, map k | k in base.tables.m :: Existing(d, base.tables.m[k]), base.fks.m)
  }

  /** The schema asked for: its tables, columns, rendered types, nullability and foreign keys. */
  ghost predicate HoldsTarget(d: Dialect, target: Index, db: Db) {
    && db.tables.Keys == target.tables.m.Keys
    && ColumnsThere(d, target, db.tables)
    && db.fks.Keys == target.fks.m.Keys
  }

  ghost predicate Before<T>(s: seq<T>, a: T, b: T) {
    exists i, j :: 0 <= i < j < |s| && s[i] == a && s[j] == b
  }

  /** A foreign key without a known name can only leave with its referencing table, in time. */
  ghost predicate UnnamedLeaves(base: Index, target: Index) {
    forall f :: f in base.fks.m && f !in target.fks.m && base.fks.m[f].None? ==>
      && f.child !in target.tables.m
      && (f.parent in target.tables.m || f.child == f.parent || Before(base.tables.keys, f.child, f.parent))
  }

  /** No schema is created for the empty name. */
  ghost predicate SchemasNamed(base: Index, target: Index, schemas: set<string>) {
    forall k :: k in target.tables.m && k !in base.tables.m && k.schemaName == "" ==> "" in schemas
  }

  /** A column leaves NOT NULL only if it is not in a primary key that stays. */
  ghost predicate KeysStayNotNull(base: Index, target: Index) {
    forall k :: k in base.tables.m && k in target.tables.m ==>
      forall c :: c in KeptKey(base.tables.m[k], target.tables.m[k]) && c in target.tables.m[k].columns.m ==>
        target.tables.m[k].columns.m[c].notNull
  }

  /** No added foreign key takes the name that a kept one of the same table has in the base. */
  ghost predicate NamesDoNotClash(base: Index, target: Index) {
    forall f, g | f in target.fks.m && f !in base.fks.m && g in base.fks.m && g in target.fks.m
      && f.child == g.child && target.fks.m[f].Some? :: base.fks.m[g] != target.fks.m[f]
  }

  /** The exact condition, read off the two snapshots and the database's schemas. */
  ghost predicate Applicable(base: Index, target: Index, schemas: set<string>) {
    && UnnamedLeaves(base, target) && SchemasNamed(base, target, schemas)
    && KeysStayNotNull(base, target) && NamesDoNotClash(base, target)
  }

  // ---------------------------------------------------------------- the states between the phases

  ghost function FksAfterDrops(base: Index, target: Index): FkMap {
    WithoutDropped(base, target, base.fks.m, base.fks.m.Keys)
  }

  ghost function GoneTables(base: Index, target: Index): set<TableKey> {
    base.tables.m.Keys - target.tables.m.Keys
  }

  ghost function FksLeft(base: Index, target: Index): FkMap {
    WithoutChildren(FksAfterDrops(base, target), GoneTables(base, target))
  }

  ghost function SchemasAfter(base: Index, target: Index, schemas: set<string>): set<string> {
    schemas + MissingSchemas(base, target)
  }

  ghost function TablesCreated(d: Dialect, base: Index, target: Index): map<TableKey, DbTable> {
    (map k | k in base.tables.m :: Existing(d, base.tables.m[k])) - GoneTables(base, target)
    + Created(d, base, target, target.tables.m.Keys)
  }

  ghost function TablesAfter(d: Dialect, base: Index, target: Index): map<TableKey, DbTable> {
    TablesCreated(d, base, target) + AlteredTables(d, base, target, target.tables.m.Keys)
  }

  ghost function Final(d: Dialect, base: Index, target: Index, schemas: set<string>): Db {
    Db(SchemasAfter(base, target, schemas), TablesAfter(d, base, target),
       FksLeft(base, target) + NewFks(base, target, target.fks.m.Keys))
  }

  /** Every phase is accepted. */
  ghost predicate Accepted(base: Index, target: Index, schemas: set<string>) {
    && DropOrderOk(target, FksAfterDrops(base, target), base.tables.keys)
    && SchemasThere(base, SchemasAfter(base, target, schemas), target.tables.m.Keys)
    && AllAlterOk(FksLeft(base, target), base, target, target.tables.m.Keys)
    && NamesFree(base, target, FksLeft(base, target), target.fks.m.Keys)
  }

  lemma {:induction false} IsListed(ix: Index)
    requires WellFormed(ix)
    ensures Listed(ix)
    ensures Distinct(ix.tables.keys) && Elems(ix.tables.keys) == ix.tables.m.Keys
    ensures Distinct(ix.fks.keys) && Elems(ix.fks.keys) == ix.fks.m.Keys
    ensures forall k :: k in ix.tables.m ==> WellFormedTable(ix.tables.m[k])
  {
    hide WellFormedFk;
  }

  lemma {:induction false} FinalColumns(d: Dialect, base: Index, target: Index)
    ensures TablesAfter(d, base, target).Keys == target.tables.m.Keys
    ensures ColumnsThere(d, target, TablesAfter(d, base, target))
  {
    hide Defs;
  }

  /** The first three phases. */
  lemma {:induction false} RunDrops(d: Dialect, base: Index, target: Index, schemas: set<string>)
    requires WellFormed(base) && WellFormed(target)
    ensures Run(Start(d, base, schemas),
                DropFks(base, target, base.fks.keys) + DropTables(target, base.tables.keys)
                + CreateSchemas(SortedStrings(MissingSchemas(base, target)))) ==
      if !DropOrderOk(target, FksAfterDrops(base, target), base.tables.keys) then None
      else Some(Db(SchemasAfter(base, target, schemas),
                   Start(d, base, schemas).tables - GoneTables(base, target), FksLeft(base, target)))
  {
    IsListed(base);
    hide WellFormed, Run, Distinct, Existing;
    var db0 := Start(d, base, schemas);
    var names := SortedStrings(MissingSchemas(base, target));
    var p1, p2, p3 := DropFks(base, target, base.fks.keys), DropTables(target, base.tables.keys), CreateSchemas(names);
    var db1 := db0.(fks := FksAfterDrops(base, target));
    RunDropFks(base, target, db0, base.fks.keys);
    RunThen(db0, p1, Some(db1), p2);
    RunDropTables(target, db1, base.tables.keys);
    assert Removed(target, base.tables.keys) == GoneTables(base, target);
    RunThen(db0, p1 + p2, Run(db0, p1 + p2), p3);
    var db2 := db1.(tables := db0.tables - GoneTables(base, target), fks := FksLeft(base, target));
    RunCreateSchemas(db2, names);
    assert (set n | n in names) == MissingSchemas(base, target);
  }

  lemma {:induction false} RunCreates(d: Dialect, base: Index, target: Index, schemas: set<string>, db: Db)
    requires WellFormed(base) && WellFormed(target)
    requires db == Db(schemas, Start(d, base, schemas).tables - GoneTables(base, target), FksLeft(base, target))
    ensures Run(db, CreateTables(d, base, target, target.tables.keys)) ==
      if !SchemasThere(base, schemas, target.tables.m.Keys) then None
      else Some(db.(tables := TablesCreated(d, base, target)))
  {
    IsListed(target);
    hide WellFormed, Run, Distinct, WellFormedTable, Existing;
    RunCreateTables(d, base, target, db, target.tables.keys);
  }

  lemma {:induction false} RunAlters(d: Dialect, base: Index, target: Index, db: Db)
    requires WellFormed(base) && WellFormed(target) && Listed(base) && Listed(target)
    requires db.tables == TablesCreated(d, base, target) && db.fks == FksLeft(base, target)
    ensures Run(db, AlterTables(d, base, target, target.tables.keys)) ==
      if !AllAlterOk(FksLeft(base, target), base, target, target.tables.m.Keys) then None
      else Some(db.(tables := TablesAfter(d, base, target)))
  {
    IsListed(base);
    IsListed(target);
    hide WellFormed, Run, Distinct, WellFormedTable, Listed;
    RunAlterTables(d, base, target, db, target.tables.keys);
  }

  lemma {:induction false} RunAdds(d: Dialect, base: Index, target: Index, db: Db)
    requires WellFormed(base) && WellFormed(target)
    requires db.tables == TablesAfter(d, base, target) && db.fks == FksLeft(base, target)
    ensures forall f :: f in target.fks.keys ==> f in target.fks.m
    ensures Run(db, AddFks(base, target, target.fks.keys)) ==
      if !NamesFree(base, target, FksLeft(base, target), target.fks.m.Keys) then None
      else Some(db.(fks := FksLeft(base, target) + NewFks(base, target, target.fks.m.Keys)))
  {
    IsListed(target);
    FinalColumns(d, base, target);
    hide WellFormed, Run, Distinct, ColumnsThere, TablesAfter, WellFormedTable;
    RunAddFks(d, base, target, db, target.fks.keys);
  }

  /** A whole run: refused exactly when a phase is, and otherwise ending in `Final`. */
  lemma {:induction false} RunMigration(d: Dialect, base: Index, target: Index, schemas: set<string>)
    requires WellFormed(base) && WellFormed(target)
    ensures Listed(base) && Listed(target)
    ensures Run(Start(d, base, schemas), MigrationStmts(d, base, target)) ==
      if Accepted(base, target, schemas) then Some(Final(d, base, target, schemas)) else None
  {
    IsListed(base);
    IsListed(target);
    var db0 := Start(d, base, schemas);
    var drops := DropFks(base, target, base.fks.keys) + DropTables(target, base.tables.keys)
                 + CreateSchemas(SortedStrings(MissingSchemas(base, target)));
    var creates, alters := CreateTables(d, base, target, target.tables.keys),
      AlterTables(d, base, target, target.tables.keys);
    var adds := AddFks(base, target, target.fks.keys);
    assert MigrationStmts(d, base, target) == drops + creates + alters + adds;
    RunDrops(d, base, target, schemas);
    hide WellFormed, Run, Distinct, WellFormedTable, Listed, MigrationStmts, TablesAfter, TablesCreated,
      FksLeft, GoneTables, FksAfterDrops, DropOrderOk, SchemasThere, AllAlterOk, NamesFree, SchemasAfter;
    var all := SchemasAfter(base, target, schemas);
    var db1 := Db(all, db0.tables - GoneTables(base, target), FksLeft(base, target));
    assert db1.tables == Start(d, base, all).tables - GoneTables(base, target);
    RunThen(db0, drops, Run(db0, drops), creates);
    RunCreates(d, base, target, all, db1);
    var db2 := db1.(tables := TablesCreated(d, base, target));
    RunThen(db0, drops + creates, Run(db0, drops + creates), alters);
    RunAlters(d, base, target, db2);
    var db3 := db2.(tables := TablesAfter(d, base, target));
    RunThen(db0, drops + creates + alters, Run(db0, drops + creates + alters), adds);
    RunAdds(d, base, target, db3);
  }

  // ---------------------------------------------------------------- the exact condition

  lemma {:induction false} BeforeCons<T>(s: seq<T>, a: T, b: T)
    requires s != [] && Distinct(s)
    ensures Before(s, a, b) <==> (a == s[0] && b in s[1..]) || Before(s[1..], a, b)
  {
    if Before(s, a, b) {
      var i, j :| 0 <= i < j < |s| && s[i] == a && s[j] == b;
      if i == 0 {
        assert s[1..][j - 1] == b;
      } else {
        assert s[1..][i - 1] == a && s[1..][j - 1] == b;
      }
    }
    if a == s[0] && b in s[1..] {
      var j :| 0 <= j < |s[1..]| && s[1..][j] == b;
      assert s[0] == a && s[j + 1] == b;
    }
    if Before(s[1..], a, b) {
      var i, j :| 0 <= i < j < |s[1..]| && s[1..][i] == a && s[1..][j] == b;
      assert s[i + 1] == a && s[j + 1] == b;
    }
  }

  lemma {:induction false} BeforeIn<T>(s: seq<T>, a: T, b: T)
    requires Before(s, a, b)
    ensures a in s && b in s
  {
  }

  /** A foreign key does not stand in the way of the drops of ks. */
  ghost predicate OutOfTheWay(target: Index, ks: seq<TableKey>, f: FkSignature) {
    f.parent in ks && f.parent !in target.tables.m ==>
      f.child == f.parent || (f.child !in target.tables.m && Before(ks, f.child, f.parent))
  }

  lemma {:induction false} OutOfTheWayStep(target: Index, ks: seq<TableKey>, f: FkSignature)
    requires ks != [] && Distinct(ks)
    ensures ks[0] in target.tables.m ==> (OutOfTheWay(target, ks, f) <==> OutOfTheWay(target, ks[1..], f))
    ensures ks[0] !in target.tables.m ==>
      (OutOfTheWay(target, ks, f) <==>
        (f.parent == ks[0] ==> f.child == ks[0]) && (f.child == ks[0] || OutOfTheWay(target, ks[1..], f)))
  {
    DistinctTail(ks);
    assert forall k :: k in ks <==> k in Elems(ks);
    assert forall k :: k in ks[1..] <==> k in Elems(ks[1..]);
    BeforeCons(ks, f.child, f.parent);
    if Before(ks[1..], f.child, f.parent) {
      BeforeIn(ks[1..], f.child, f.parent);
    }
    hide Before, Distinct;
  }

  lemma {:induction false} DropOrderMeaning(target: Index, fks: FkMap, ks: seq<TableKey>)
    requires Distinct(ks)
    ensures DropOrderOk(target, fks, ks) <==> forall f :: f in fks ==> OutOfTheWay(target, ks, f)
    decreases |ks|
  {
    if ks != [] {
      DistinctTail(ks);
      var k := ks[0];
      forall f ensures k in target.tables.m ==> (OutOfTheWay(target, ks, f) <==> OutOfTheWay(target, ks[1..], f))
        ensures k !in target.tables.m ==>
          (OutOfTheWay(target, ks, f) <==>
            (f.parent == k ==> f.child == k) && (f.child == k || OutOfTheWay(target, ks[1..], f)))
      {
        OutOfTheWayStep(target, ks, f);
      }
      hide OutOfTheWay, Distinct;
      if k in target.tables.m {
        DropOrderMeaning(target, fks, ks[1..]);
      } else {
        DropOrderMeaning(target, WithoutChildren(fks, {k}), ks[1..]);
      }
    }
  }

  /** The foreign keys of the base without a known name that the target does not have. */
  ghost predicate Unnamed(base: Index, target: Index, f: FkSignature) {
    f in base.fks.m && f !in target.fks.m && base.fks.m[f].None?
  }

  lemma {:induction false} FkAfterDrops(base: Index, target: Index, f: FkSignature)
    requires WellFormed(base) && WellFormed(target) && f in base.fks.m
    ensures f in FksAfterDrops(base, target) <==>
      f in target.fks.m || Unnamed(base, target, f) || Skipped(base, target, f)
    ensures Skipped(base, target, f) ==> f.parent in target.tables.m && f.child !in target.tables.m
    ensures f in target.fks.m ==> f.parent in target.tables.m && f.child in target.tables.m
    ensures f.parent in base.tables.m && f.child in base.tables.m
  {
    FkTables(base, f);
    if f in target.fks.m {
      FkTables(target, f);
    }
    hide WellFormed;
  }

  lemma {:induction false} DropsMeaning(base: Index, target: Index)
    requires WellFormed(base) && WellFormed(target)
    ensures DropOrderOk(target, FksAfterDrops(base, target), base.tables.keys) <==>
      forall f :: Unnamed(base, target, f) ==> OutOfTheWay(target, base.tables.keys, f)
  {
    IsListed(base);
    hide Distinct, Before;
    DropOrderMeaning(target, FksAfterDrops(base, target), base.tables.keys);
    hide DropOrderOk;
    forall f | f in base.fks.m
      ensures Unnamed(base, target, f) ==> f in FksAfterDrops(base, target)
      ensures f in FksAfterDrops(base, target) && !Unnamed(base, target, f) ==> OutOfTheWay(target, base.tables.keys, f)
    {
      FkAfterDrops(base, target, f);
    }
    hide WellFormed;
  }

  lemma {:induction false} LeftMeaning(base: Index, target: Index, f: FkSignature)
    requires WellFormed(base) && WellFormed(target)
    ensures f in FksLeft(base, target) <==>
      f in base.fks.m && (f in target.fks.m || (Unnamed(base, target, f) && f.child in target.tables.m))
    ensures f in FksLeft(base, target) ==> FksLeft(base, target)[f] == base.fks.m[f]
  {
    if f in base.fks.m {
      FkAfterDrops(base, target, f);
    }
    hide WellFormed, Skipped, Unnamed;
  }

  lemma {:induction false} AllFks(base: Index, target: Index, f: FkSignature)
    requires WellFormed(base) && WellFormed(target)
    ensures f in (FksLeft(base, target) + NewFks(base, target, target.fks.m.Keys)).Keys <==>
      f in target.fks.m || (Unnamed(base, target, f) && f.child in target.tables.m)
  {
    hide WellFormed, FksLeft;
    LeftMeaning(base, target, f);
  }

  lemma {:induction false} FksMeaning(base: Index, target: Index)
    requires WellFormed(base) && WellFormed(target)
    ensures (FksLeft(base, target) + NewFks(base, target, target.fks.m.Keys)).Keys == target.fks.m.Keys <==>
      forall f :: Unnamed(base, target, f) ==> f.child !in target.tables.m
  {
    hide WellFormed, FksLeft, NewFks;
    var all := (FksLeft(base, target) + NewFks(base, target, target.fks.m.Keys)).Keys;
    forall f ensures f in all <==> f in target.fks.m || (Unnamed(base, target, f) && f.child in target.tables.m) {
      AllFks(base, target, f);
    }
  }

  ghost predicate LeavesInTime(base: Index, target: Index, f: FkSignature) {
    && f.child !in target.tables.m
    && (f.parent in target.tables.m || f.child == f.parent || Before(base.tables.keys, f.child, f.parent))
  }

  lemma {:induction false} LeavesMeaning(base: Index, target: Index, f: FkSignature)
    requires WellFormed(base) && Unnamed(base, target, f)
    ensures LeavesInTime(base, target, f) <==>
      OutOfTheWay(target, base.tables.keys, f) && f.child !in target.tables.m
  {
    IsListed(base);
    FkTables(base, f);
    assert f.parent in Elems(base.tables.keys);
    hide WellFormed, Before, Distinct;
  }

  /** Dropping and matching together: exactly when every unnamed foreign key leaves in time. */
  lemma {:induction false} UnnamedOneByOne(base: Index, target: Index)
    ensures UnnamedLeaves(base, target) <==> forall f :: Unnamed(base, target, f) ==> LeavesInTime(base, target, f)
  {
    hide Before;
    if forall f :: Unnamed(base, target, f) ==> LeavesInTime(base, target, f) {
      forall f | f in base.fks.m && f !in target.fks.m && base.fks.m[f].None? ensures LeavesInTime(base, target, f) {
        assert Unnamed(base, target, f);
      }
    }
  }

  lemma {:induction false} UnnamedMeaning(base: Index, target: Index)
    requires WellFormed(base) && WellFormed(target)
    ensures UnnamedLeaves(base, target) <==>
      && DropOrderOk(target, FksAfterDrops(base, target), base.tables.keys)
      && (FksLeft(base, target) + NewFks(base, target, target.fks.m.Keys)).Keys == target.fks.m.Keys
  {
    hide WellFormed, DropOrderOk, FksLeft, NewFks, FksAfterDrops, LeavesInTime, UnnamedLeaves, OutOfTheWay, Unnamed;
    DropsMeaning(base, target);
    FksMeaning(base, target);
    UnnamedOneByOne(base, target);
    forall f | Unnamed(base, target, f)
      ensures LeavesInTime(base, target, f) <==>
        OutOfTheWay(target, base.tables.keys, f) && f.child !in target.tables.m
    {
      LeavesMeaning(base, target, f);
    }
  }

  lemma {:induction false} SchemasMeaning(base: Index, target: Index, schemas: set<string>)
    requires SchemaNames(base) <= schemas
    ensures SchemasNamed(base, target, schemas) <==>
      SchemasThere(base, SchemasAfter(base, target, schemas), target.tables.m.Keys)
  {
    forall k | k in target.tables.m && k !in base.tables.m && k.schemaName != ""
      ensures k.schemaName in SchemasAfter(base, target, schemas)
    {
      if k.schemaName !in SchemaNames(base) {
        assert k.schemaName in MissingSchemas(base, target);
      }
    }
    assert "" !in MissingSchemas(base, target);
  }

  lemma {:induction false} UsesTargetColumn(target: Index, f: FkSignature, k: TableKey, c: string)
    requires WellFormed(target) && f in target.fks.m && Uses(f, k, c)
    ensures k in target.tables.m && c in target.tables.m[k].columns.m
  {
    FkTables(target, f);
    hide WellFormed;
  }

  lemma {:induction false} DroppedColumnsUnused(base: Index, target: Index, left: FkMap, k: TableKey)
    requires WellFormed(target) && left.Keys <= target.fks.m.Keys && k in base.tables.m && k in target.tables.m
    ensures NoneInUse(left, k, base.tables.m[k].columns.m.Keys - target.tables.m[k].columns.m.Keys)
  {
    hide WellFormed, Uses;
    forall f, c | f in left && Uses(f, k, c) ensures c in target.tables.m[k].columns.m {
      UsesTargetColumn(target, f, k, c);
    }
  }

  lemma {:induction false} AltersMeaning(base: Index, target: Index, left: FkMap)
    requires WellFormed(target) && left.Keys <= target.fks.m.Keys
    ensures KeysStayNotNull(base, target) <==> AllAlterOk(left, base, target, target.tables.m.Keys)
  {
    forall k | k in base.tables.m && k in target.tables.m
      ensures NoneInUse(left, k, base.tables.m[k].columns.m.Keys - target.tables.m[k].columns.m.Keys)
    {
      DroppedColumnsUnused(base, target, left, k);
    }
    hide NoneInUse, WellFormed, KeptKey;
  }

  /** A name is taken among what is left of the base exactly when a kept foreign key has it there. */
  lemma {:induction false} TakenIff(base: Index, target: Index, left: FkMap, f: FkSignature)
    requires f in target.fks.m
    requires forall g :: g in left <==> g in base.fks.m && g in target.fks.m
    requires forall g :: g in left ==> left[g] == base.fks.m[g]
    ensures NameTaken(left, f.child, target.fks.m[f]) <==>
      exists g :: g in base.fks.m && g in target.fks.m && f.child == g.child
                  && target.fks.m[f].Some? && base.fks.m[g] == target.fks.m[f]
  {
    if g :| g in base.fks.m && g in target.fks.m && f.child == g.child && target.fks.m[f].Some?
            && base.fks.m[g] == target.fks.m[f]
    {
      assert HasName(left, g, f.child, target.fks.m[f]);
    }
    if g :| HasName(left, g, f.child, target.fks.m[f]) {
      assert g in base.fks.m && g in target.fks.m;
    }
  }

  lemma {:induction false} NamesMeaning(base: Index, target: Index)
    requires WellFormed(base) && WellFormed(target)
    requires forall f :: f in FksLeft(base, target) ==> f in target.fks.m
    ensures NamesDoNotClash(base, target) <==>
      NamesFree(base, target, FksLeft(base, target), target.fks.m.Keys)
  {
    hide WellFormed, FksLeft, NameTaken;
    var left := FksLeft(base, target);
    forall g ensures g in left <==> g in base.fks.m && g in target.fks.m
      ensures g in left ==> left[g] == base.fks.m[g]
    {
      LeftMeaning(base, target, g);
    }
    forall f | f in target.fks.m && f !in base.fks.m
      ensures NameTaken(left, f.child, target.fks.m[f]) <==>
        exists g :: g in base.fks.m && g in target.fks.m && f.child == g.child
                    && target.fks.m[f].Some? && base.fks.m[g] == target.fks.m[f]
    {
      TakenIff(base, target, left, f);
    }
  }

  lemma {:induction false} AcceptedIff(base: Index, target: Index, schemas: set<string>)
    requires WellFormed(base) && WellFormed(target) && SchemaNames(base) <= schemas
    ensures Applicable(base, target, schemas) <==>
      && Accepted(base, target, schemas)
      && (FksLeft(base, target) + NewFks(base, target, target.fks.m.Keys)).Keys == target.fks.m.Keys
  {
    UnnamedMeaning(base, target);
    SchemasMeaning(base, target, schemas);
    if (FksLeft(base, target) + NewFks(base, target, target.fks.m.Keys)).Keys == target.fks.m.Keys {
      forall f | f in FksLeft(base, target) ensures f in target.fks.m {
        assert f in (FksLeft(base, target) + NewFks(base, target, target.fks.m.Keys)).Keys;
      }
      AltersMeaning(base, target, FksLeft(base, target));
      NamesMeaning(base, target);
    }
    hide WellFormed, UnnamedLeaves, SchemasNamed, KeysStayNotNull, NamesDoNotClash, DropOrderOk, SchemasThere,
      AllAlterOk, NamesFree, FksLeft, FksAfterDrops, SchemasAfter;
  }

  // ---------------------------------------------------------------- the main results

  /**
   For all snapshots of real databases: the database accepts every statement of the migration and ends
   with the target's tables, columns, types, nullability and foreign keys exactly when it is applicable.
   `Exec` refuses to drop a column that any foreign key uses. PostgreSQL refuses it only for a referenced
   column and drops a foreign key with a column on its referencing side; an unnamed foreign key that would
   leave in that way counts here as one that cannot.
   */
  lemma {:induction false} MigrationReachesTarget(d: Dialect, base: Index, target: Index, schemas: set<string>)
    requires WellFormed(base) && WellFormed(target) && SchemaNames(base) <= schemas
    ensures Listed(base) && Listed(target)
    ensures var end := Run(Start(d, base, schemas), MigrationStmts(d, base, target));
      (end.Some? && HoldsTarget(d, target, end.value)) <==> Applicable(base, target, schemas)
  {
    RunMigration(d, base, target, schemas);
    AcceptedIff(base, target, schemas);
    FinalColumns(d, base, target);
    hide WellFormed, Run, Accepted, Applicable, TablesAfter, ColumnsThere, FksLeft, MigrationStmts, Start, Listed;
  }

  /** What the migration leaves beside that: primary keys and comments are not always the target's. */
  lemma {:induction false} MigrationLeaves(d: Dialect, base: Index, target: Index, schemas: set<string>, k: TableKey)
    requires WellFormed(base) && WellFormed(target) && SchemaNames(base) <= schemas
    requires Applicable(base, target, schemas) && k in target.tables.m
    ensures Listed(base) && Listed(target)
    ensures var end := Run(Start(d, base, schemas), MigrationStmts(d, base, target));
      && end.Some? && k in end.value.tables
      && (k !in base.tables.m ==>
            end.value.tables[k].pk == target.tables.m[k].pk && end.value.tables[k].comment == None)
      && (k in base.tables.m ==>
            && end.value.tables[k].pk == KeptKey(base.tables.m[k], target.tables.m[k])
            && end.value.tables[k].comment ==
                 Plain(if d.postgresql then target.tables.m[k].comment else base.tables.m[k].comment))
  {
    hide WellFormed, Run, Accepted, Applicable, FksLeft, MigrationStmts, Start, Listed, Defs, KeptKey;
    RunMigration(d, base, target, schemas);
    AcceptedIff(base, target, schemas);
  }

  /** A surviving table gets the target's primary key exactly when it had it, or both end up with none. */
  lemma {:induction false} KeyReachesTarget(bt: Table, tt: Table)
    requires WellFormedTable(bt) && WellFormedTable(tt)
    ensures KeptKey(bt, tt) == tt.pk <==>
      bt.pk == tt.pk || (tt.pk == [] && exists c :: c in bt.pk && c !in tt.columns.m)
  {
  }

  // ---------------------------------------------------------------- inputs on which it fails

  function OneTable(k: TableKey, c: string, col: Column, pk: seq<string>): Index {
    Index(Dict([k], map[k := Table(None, Dict([c], map[c := col]), pk)]), Dict([], map[]))
  }

  lemma {:induction false} OneTableWellFormed(k: TableKey, c: string, col: Column, pk: seq<string>)
    requires pk == [] || (pk == [c] && col.notNull)
    ensures WellFormed(OneTable(k, c, col, pk))
  {
  }

  lemma {:induction false} KeyColumnRefused(d: Dialect, base: Index, target: Index, schemas: set<string>, k: TableKey,
    c: string)
    requires WellFormed(base) && WellFormed(target) && k in base.tables.m && k in target.tables.m
    requires c in KeptKey(base.tables.m[k], target.tables.m[k]) && c in target.tables.m[k].columns.m
    requires !target.tables.m[k].columns.m[c].notNull
    ensures Listed(base) && Listed(target)
    ensures Run(Start(d, base, schemas), MigrationStmts(d, base, target)) == None
  {
    RunMigration(d, base, target, schemas);
    hide Run, MigrationStmts, KeptKey, WellFormed, DropOrderOk, SchemasThere, NamesFree, NoneInUse;
    assert !AlterOk(FksLeft(base, target), k, base.tables.m[k], target.tables.m[k]);
  }

  /** A one-column primary key is given up while its column becomes nullable: DROP NOT NULL is refused. */
  lemma {:induction false} DroppedKeyIsRefused(d: Dialect, k: TableKey, c: string, ty: Option<string>)
    ensures var base, target := OneTable(k, c, Column(ty, true), [c]), OneTable(k, c, Column(ty, false), []);
      && WellFormed(base) && WellFormed(target) && Listed(base) && Listed(target)
      && Run(Start(d, base, {k.schemaName}), MigrationStmts(d, base, target)) == None
  {
    var base, target := OneTable(k, c, Column(ty, true), [c]), OneTable(k, c, Column(ty, false), []);
    OneTableWellFormed(k, c, Column(ty, true), [c]);
    OneTableWellFormed(k, c, Column(ty, false), []);
    hide WellFormed, Run, MigrationStmts;
    assert KeptKey(base.tables.m[k], target.tables.m[k]) == [c];
    KeyColumnRefused(d, base, target, {k.schemaName}, k, c);
  }

  lemma {:induction false} EmptySchemaRefused(d: Dialect, base: Index, target: Index, schemas: set<string>, k: TableKey)
    requires WellFormed(base) && WellFormed(target) && k in target.tables.m && k !in base.tables.m
    requires k.schemaName == "" && "" !in schemas
    ensures Listed(base) && Listed(target)
    ensures Run(Start(d, base, schemas), MigrationStmts(d, base, target)) == None
  {
    RunMigration(d, base, target, schemas);
    hide Run, MigrationStmts, WellFormed, Listed, DropOrderOk, AllAlterOk, NamesFree, FksLeft;
    assert "" !in MissingSchemas(base, target);
    assert !SchemasThere(base, SchemasAfter(base, target, schemas), target.tables.m.Keys);
  }

  /** The first table of an empty database has no schema: CREATE TABLE is refused. */
  lemma {:induction false} EmptySchemaIsRefused(d: Dialect, name: string, c: string, col: Column)
    ensures var base, target := Index(Dict([], map[]), Dict([], map[])), OneTable(TableKey("", name), c, col, []);
      && WellFormed(base) && WellFormed(target) && Listed(base) && Listed(target)
      && Run(Start(d, base, {}), MigrationStmts(d, base, target)) == None
  {
    var base, target := Index(Dict([], map[]), Dict([], map[])), OneTable(TableKey("", name), c, col, []);
    OneTableWellFormed(TableKey("", name), c, col, []);
    assert WellFormed(base);
    hide WellFormed, Run, MigrationStmts;
    EmptySchemaRefused(d, base, target, {}, TableKey("", name));
  }

  lemma {:induction false} ReusedNameRefused(d: Dialect, base: Index, target: Index, schemas: set<string>,
    f: FkSignature, g: FkSignature)
    requires WellFormed(base) && WellFormed(target)
    requires f in base.fks.m && f in target.fks.m && g in target.fks.m && g !in base.fks.m
    requires f.child == g.child && target.fks.m[g].Some? && base.fks.m[f] == target.fks.m[g]
    ensures Listed(base) && Listed(target)
    ensures Run(Start(d, base, schemas), MigrationStmts(d, base, target)) == None
  {
    RunMigration(d, base, target, schemas);
    LeftMeaning(base, target, f);
    hide Run, MigrationStmts, WellFormed, DropOrderOk, SchemasThere, AllAlterOk, FksLeft;
    assert HasName(FksLeft(base, target), f, g.child, target.fks.m[g]);
    assert NameTaken(FksLeft(base, target), g.child, target.fks.m[g]);
  }

  /** Two columns of one table that reference a column of another. */
  function TwoTables(a: TableKey, b: TableKey, x: string, y: string, fks: Dict<FkSignature, Option<string>>): Index {
    var col := Column(None, false);
    var t := Table(None, Dict([x, y], map[x := col, y := col]), []);
    Index(Dict([a, b], map[a := t, b := t]), fks)
  }

  lemma {:induction false} TwoTablesFk(a: TableKey, b: TableKey, x: string, y: string,
    fks: Dict<FkSignature, Option<string>>,
    f: FkSignature)
    requires a != b && x != y && (f == FkSignature(a, [x], b, [x]) || f == FkSignature(a, [y], b, [x]))
    ensures WellFormedFk(TwoTables(a, b, x, y, fks).tables.m, f)
  {
  }

  lemma {:induction false} TwoTablesValid(a: TableKey, b: TableKey, x: string, y: string,
    fks: Dict<FkSignature, Option<string>>)
    requires a != b && x != y
    ensures var ix := TwoTables(a, b, x, y, fks);
      ix.tables.Valid() && ix.fks == fks && forall k :: k in ix.tables.m ==> WellFormedTable(ix.tables.m[k])
  {
  }

  lemma {:induction false} TwoTablesWellFormed(a: TableKey, b: TableKey, x: string, y: string,
    fks: Dict<FkSignature, Option<string>>)
    requires a != b && x != y && fks.Valid()
    requires forall f :: f in fks.m ==> f == FkSignature(a, [x], b, [x]) || f == FkSignature(a, [y], b, [x])
    requires forall f, g :: f in fks.m && g in fks.m && fks.m[f] == fks.m[g] ==> f == g
    ensures WellFormed(TwoTables(a, b, x, y, fks))
  {
    hide TwoTables, WellFormedTable, WellFormedFk;
    TwoTablesValid(a, b, x, y, fks);
    forall f | f in fks.m ensures WellFormedFk(TwoTables(a, b, x, y, fks).tables.m, f) {
      TwoTablesFk(a, b, x, y, fks, f);
    }
  }

  /** A kept foreign key is renamed and a new one takes its old name: ADD CONSTRAINT is refused. */
  lemma {:induction false} ReusedNameIsRefused(d: Dialect, a: TableKey, b: TableKey, x: string, y: string, n: string,
    m: string)
    requires a != b && x != y && n != m
    ensures var f, g := FkSignature(a, [x], b, [x]), FkSignature(a, [y], b, [x]);
      var base := TwoTables(a, b, x, y, Dict([f], map[f := Some(n)]));
      var target := TwoTables(a, b, x, y, Dict([f, g], map[f := Some(m), g := Some(n)]));
      && WellFormed(base) && WellFormed(target) && Listed(base) && Listed(target)
      && Run(Start(d, base, {a.schemaName, b.schemaName}), MigrationStmts(d, base, target)) == None
  {
    hide WellFormed, Run, MigrationStmts;
    var f, g := FkSignature(a, [x], b, [x]), FkSignature(a, [y], b, [x]);
    assert f.childColumns[0] != g.childColumns[0];
    var fks, fks' := Dict([f], map[f := Some(n)]), Dict([f, g], map[f := Some(m), g := Some(n)]);
    TwoTablesWellFormed(a, b, x, y, fks);
    TwoTablesWellFormed(a, b, x, y, fks');
    ReusedNameRefused(d, TwoTables(a, b, x, y, fks), TwoTables(a, b, x, y, fks'), {a.schemaName, b.schemaName}, f, g);
  }

  /** A removed foreign key without a known name stays behind between two tables that stay. */
  lemma {:induction false} UnnamedStaysBehind(d: Dialect, a: TableKey, b: TableKey, x: string, y: string)
    requires a != b && x != y
    ensures var f := FkSignature(a, [x], b, [x]);
      var base, target := TwoTables(a, b, x, y, Dict([f], map[f := None])), TwoTables(a, b, x, y, Dict([], map[]));
      && WellFormed(base) && WellFormed(target) && Listed(base) && Listed(target)
      && var end := Run(Start(d, base, {a.schemaName, b.schemaName}), MigrationStmts(d, base, target));
         !(end.Some? && HoldsTarget(d, target, end.value))
  {
    hide WellFormed, Run, MigrationStmts, HoldsTarget, Start, Listed, SchemasNamed, KeysStayNotNull, NamesDoNotClash;
    var f := FkSignature(a, [x], b, [x]);
    var base, target := TwoTables(a, b, x, y, Dict([f], map[f := None])), TwoTables(a, b, x, y, Dict([], map[]));
    TwoTablesWellFormed(a, b, x, y, Dict([f], map[f := None]));
    TwoTablesWellFormed(a, b, x, y, Dict([], map[]));
    assert f in base.fks.m && f.child in target.tables.m;
    assert !UnnamedLeaves(base, target);
    hide UnnamedLeaves;
    MigrationReachesTarget(d, base, target, {a.schemaName, b.schemaName});
  }
}
