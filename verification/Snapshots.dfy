/** The name-keyed form of a schema snapshot that backend/app/diff/schema_diff.py builds. */
module Snapshots {

  import opened Dicts

  /** The source joins the two names with a dot; keeping the pair rules out accidental clashes. */
  datatype TableKey = TableKey(schemaName: string, relationName: string)

  /** The name as it is shown, and sorted by. */
  function TableText(k: TableKey): string {
    if k.schemaName == "" then k.relationName else k.schemaName + "." + k.relationName
  }

  datatype Column = Column(dataType: Option<string>, notNull: bool)

  datatype Table = Table(comment: Option<string>, columns: Dict<string, Column>, pk: seq<string>)

  /** What identifies a foreign key: its tables and column pairing, not its name. */
  datatype FkSignature = FkSignature(
    child: TableKey, childColumns: seq<string>, parent: TableKey, parentColumns: seq<string>)

  /** The indexed snapshot; a foreign key without a name has None. */
  datatype Index = Index(tables: Dict<TableKey, Table>, fks: Dict<FkSignature, Option<string>>)

  /** What a snapshot of a real database satisfies. */
  ghost predicate WellFormedTable(t: Table) {
    && t.columns.Valid()
    && (forall c :: c in t.pk ==> c in t.columns.m && t.columns.m[c].notNull)
  }

  ghost predicate WellFormedFk(tables: map<TableKey, Table>, f: FkSignature) {
    && f.child in tables && f.parent in tables
    && |f.childColumns| == |f.parentColumns|
    && (forall c :: c in f.childColumns ==> c in tables[f.child].columns.m)
    && (forall c :: c in f.parentColumns ==> c in tables[f.parent].columns.m)
  }

  ghost predicate WellFormed(ix: Index) {
    && ix.tables.Valid() && ix.fks.Valid()
    && (forall k :: k in ix.tables.m ==> WellFormedTable(ix.tables.m[k]))
    && (forall f :: f in ix.fks.m ==> WellFormedFk(ix.tables.m, f))
    && (forall f, g | f in ix.fks.m && g in ix.fks.m && f.child == g.child && ix.fks.m[f].Some?
          && ix.fks.m[f] == ix.fks.m[g] :: f == g)
  }
}
