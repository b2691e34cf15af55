/**
 The advice on which indexes to drop (backend/app/spec/index_redundancy.py), and what is left when all of it
 is followed at once.
 */
module IndexRedundancy {
  import opened Dicts
  import opened Orders
  import opened Text
  import opened IndexDefinitions

  // ---------------------------------------------------------------- reading the columns of a definition

  /** The inside of the first group, as the scanner finds it. */
  ghost function GroupOf(text: string): (r: Option<string>)
    ensures IsFirstGroup(text, r)
  {
    if exists i, j :: FirstGroup(text, i, j) then
      var i, j :| FirstGroup(text, i, j);
      Some(text[i + 1..j])
    else None
  }

  function Word(part: string): string {
    FirstWord(Strip(Strip(part, IsSpace), IsQuote))
  }

  function ColumnIn(part: string): string {
    LowerAll(Strip(Word(part), IsQuote))
  }

  /** The columns named by the parts of a list; nothing as soon as one part is an expression. */
  function ColumnsIn(parts: seq<string>): seq<string> {
    if forall p :: p in parts ==> Word(p) != "" && '(' !in p then
      seq(|parts|, i requires 0 <= i < |parts| => ColumnIn(parts[i]))
    else []
  }

  const WHERE := " where "

  /** What an index definition says about its columns; nothing when the index is partial or indexes an expression. */
  ghost function IndexColumns(definition: string): seq<string> {
    if Contains(LowerAll(definition), WHERE) then []
    else
      match GroupOf(definition)
      case None => []
      case Some(group) => ColumnsIn(Split(group, ','))
  }

  method ReadColumns(definition: string) returns (columns: seq<string>)
    ensures columns == IndexColumns(definition)
  {
    if Contains(LowerAll(definition), WHERE) {
      return [];
    }
    var group := FirstParenGroup(definition);
    FirstGroupIsUnique(definition, group, GroupOf(definition));
    if group.None? {
      return [];
    }
    columns := ReadParts(Split(group.value, ','));
  }

  method ReadParts(parts: seq<string>) returns (columns: seq<string>)
    ensures columns == ColumnsIn(parts)
  {
    hide Word, ColumnIn;
    columns := [];
    for i := 0 to |parts|
      invariant |columns| == i
      invariant forall m :: 0 <= m < i ==> Word(parts[m]) != "" && '(' !in parts[m] && columns[m] == ColumnIn(parts[m])
    {
      if Word(parts[i]) == "" || '(' in parts[i] {
        assert parts[i] in parts;
        return [];
      }
      columns := columns + [ColumnIn(parts[i])];
    }
  }

  // ---------------------------------------------------------------- the advice for one table

  /** An index: its name, its columns in order, and whether it enforces uniqueness. */
  datatype Ix = Ix(name: string, cols: seq<string>, unique: bool)

  datatype Item =
    | Duplicate(table: string, index: string, kept: string, columns: seq<string>)
    | PrefixRedundant(table: string, index: string, kept: string, columns: seq<string>)

  /** The advice for two indexes of a table, `a` listed before `b`. */
  function PairItems(table: string, a: Ix, b: Ix): seq<Item> {
    if a.cols == b.cols then
      var drop := if a.unique && !b.unique then b.name else if b.unique && !a.unique then a.name else b.name;
      [Duplicate(table, drop, if drop == b.name then a.name else b.name, a.cols)]
    else if a.cols <= b.cols then
      if a.unique then [] else [PrefixRedundant(table, a.name, b.name, a.cols)]
    else if b.cols <= a.cols then
      if b.unique then [] else [PrefixRedundant(table, b.name, a.name, b.cols)]
    else []
  }

  /** The advice on index `i` and each of the indexes after it, before the `n`-th. */
  function ItemsWith(table: string, l: seq<Ix>, i: nat, n: nat): seq<Item>
    requires i < n <= |l|
  {
    if n == i + 1 then [] else ItemsWith(table, l, i, n - 1) + PairItems(table, l[i], l[n - 1])
  }

  /** The advice on the pairs whose first index is one of the first `n`. */
  function ItemsUpTo(table: string, l: seq<Ix>, n: nat): seq<Item>
    requires n <= |l|
  {
    if n == 0 then [] else ItemsUpTo(table, l, n - 1) + ItemsWith(table, l, n - 1, |l|)
  }

  function TableItems(table: string, l: seq<Ix>): seq<Item> {
    ItemsUpTo(table, l, |l|)
  }

  ghost predicate FromPair(table: string, l: seq<Ix>, i: int, j: int, item: Item) {
    0 <= i < j < |l| && item in PairItems(table, l[i], l[j])
  }

  lemma {:induction false} ItemsWithMeaning(table: string, l: seq<Ix>, i: nat, n: nat, item: Item)
    requires i < n <= |l|
    ensures item in ItemsWith(table, l, i, n) <==> exists j :: j < n && FromPair(table, l, i, j, item)
  {
    hide PairItems;
    if n > i + 1 {
      ItemsWithMeaning(table, l, i, n - 1, item);
      assert item in PairItems(table, l[i], l[n - 1]) <==> FromPair(table, l, i, n - 1, item);
    }
  }

  lemma {:induction false} ItemsUpToStep(table: string, l: seq<Ix>, n: nat, item: Item)
    requires 0 < n <= |l|
    ensures item in ItemsUpTo(table, l, n) <==>
      item in ItemsUpTo(table, l, n - 1) || item in ItemsWith(table, l, n - 1, |l|)
  {
    hide PairItems, ItemsWith;
  }

  lemma {:induction false} ItemsUpToMeaning(table: string, l: seq<Ix>, n: nat, item: Item)
    requires n <= |l|
    ensures item in ItemsUpTo(table, l, n) <==> exists i, j :: i < n && FromPair(table, l, i, j, item)
  {
    hide PairItems, ItemsWith, FromPair;
    if n == 0 {
      NoPair(table, l, item);
    } else {
      ItemsUpToMeaning(table, l, n - 1, item);
      ItemsUpToStep(table, l, n, item);
      ItemsWithMeaning(table, l, n - 1, |l|, item);
      PairBounds(table, l, n - 1, item);
    }
  }

  lemma {:induction false} NoPair(table: string, l: seq<Ix>, item: Item)
    ensures forall i, j :: FromPair(table, l, i, j, item) ==> i >= 0
  {
    hide PairItems;
  }

  lemma {:induction false} PairBounds(table: string, l: seq<Ix>, i: int, item: Item)
    ensures forall j :: FromPair(table, l, i, j, item) ==> j < |l|
  {
    hide PairItems;
  }

  /** Every piece of advice comes from a pair of the table's indexes. */
  lemma {:induction false} TableItemsMeaning(table: string, l: seq<Ix>, item: Item)
    ensures item in TableItems(table, l) <==> exists i, j :: FromPair(table, l, i, j, item)
  {
    ItemsUpToMeaning(table, l, |l|, item);
  }

  // ---------------------------------------------------------------- which indexes are advised against

  ghost predicate NamesDistinct(l: seq<Ix>) {
    forall i, j :: 0 <= i < j < |l| ==> l[i].name != l[j].name
  }

  ghost predicate Advised(table: string, l: seq<Ix>, name: string) {
    exists item :: item in TableItems(table, l) && item.index == name
  }

  /** Index `k` loses against index `m`: it is the worse of two duplicates, or a prefix that enforces nothing. */
  ghost predicate Loses(l: seq<Ix>, k: int, m: int)
    requires 0 <= k < |l| && 0 <= m < |l|
  {
    if l[k].cols == l[m].cols then
      if m < k then !(l[k].unique && !l[m].unique) else k < m && l[m].unique && !l[k].unique
    else l[k].cols <= l[m].cols && !l[k].unique
  }

  /** The advice on a pair names exactly the one that loses. */
  lemma {:induction false} PairLoser(table: string, l: seq<Ix>, i: int, j: int)
    requires NamesDistinct(l) && 0 <= i < j < |l|
    ensures (exists item :: FromPair(table, l, i, j, item) && item.index == l[i].name) <==> Loses(l, i, j)
    ensures (exists item :: FromPair(table, l, i, j, item) && item.index == l[j].name) <==> Loses(l, j, i)
    ensures forall item :: FromPair(table, l, i, j, item) ==> item.index == l[i].name || item.index == l[j].name
  {
    var a, b := l[i], l[j];
    assert a.name != b.name;
    var items := PairItems(table, a, b);
    if items != [] {
      assert items == [items[0]];
      assert FromPair(table, l, i, j, items[0]);
    }
  }

  lemma {:induction false} AdvisedIff(table: string, l: seq<Ix>, k: int)
    requires NamesDistinct(l) && 0 <= k < |l|
    ensures Advised(table, l, l[k].name) <==> exists m :: 0 <= m < |l| && Loses(l, k, m)
  {
    if Advised(table, l, l[k].name) {
      var item :| item in TableItems(table, l) && item.index == l[k].name;
      TableItemsMeaning(table, l, item);
      var i, j :| FromPair(table, l, i, j, item);
      PairLoser(table, l, i, j);
      hide PairItems, TableItems, Loses;
      assert k == i || k == j;
      assert Loses(l, k, if k == i then j else i);
    }
    if m :| 0 <= m < |l| && Loses(l, k, m) {
      assert k != m;
      var i, j := if k < m then k else m, if k < m then m else k;
      PairLoser(table, l, i, j);
      hide PairItems, TableItems, Loses;
      var item :| FromPair(table, l, i, j, item) && item.index == l[k].name;
      TableItemsMeaning(table, l, item);
    }
  }

  /** Some index extends the given one and is extended by no wider one. */
  lemma {:induction false} WidestExtension(l: seq<Ix>, k: int, bound: nat) returns (w: int)
    requires 0 <= k < |l| && forall m :: 0 <= m < |l| ==> |l[m].cols| <= bound
    ensures 0 <= w < |l| && l[k].cols <= l[w].cols
    ensures forall m :: 0 <= m < |l| && l[w].cols <= l[m].cols ==> l[m].cols == l[w].cols
    decreases bound - |l[k].cols|
  {
    if m :| 0 <= m < |l| && l[k].cols <= l[m].cols && l[k].cols != l[m].cols {
      w := WidestExtension(l, m, bound);
    } else {
      w := k;
    }
  }

  lemma {:induction false} WidthBound(l: seq<Ix>) returns (bound: nat)
    ensures forall m :: 0 <= m < |l| ==> |l[m].cols| <= bound
  {
    bound := 0;
    for i := 0 to |l|
      invariant forall m :: 0 <= m < i ==> |l[m].cols| <= bound
    {
      if |l[i].cols| > bound { bound := |l[i].cols|; }
    }
  }

  /** The first index with the columns of index `k`, among the unique ones if asked for. */
  lemma {:induction false} FirstLike(l: seq<Ix>, k: int, unique: bool) returns (f: int)
    requires 0 <= k < |l| && (unique ==> l[k].unique)
    ensures 0 <= f <= k && l[f].cols == l[k].cols && (unique ==> l[f].unique)
    ensures forall m :: 0 <= m < f && l[m].cols == l[k].cols ==> unique && !l[m].unique
    decreases k
  {
    if m :| 0 <= m < k && l[m].cols == l[k].cols && (unique ==> l[m].unique) {
      f := FirstLike(l, m, unique);
    } else {
      f := k;
    }
  }

  /** Within a table: something at least as wide always stays. */
  lemma {:induction false} SomethingWiderStays(table: string, l: seq<Ix>, k: int)
    requires NamesDistinct(l) && 0 <= k < |l|
    ensures exists s :: 0 <= s < |l| && !Advised(table, l, l[s].name) && l[k].cols <= l[s].cols
  {
    hide Advised;
    var bound := WidthBound(l);
    var w := WidestExtension(l, k, bound);
    if u :| 0 <= u < |l| && l[u].cols == l[w].cols && l[u].unique {
      var s := FirstLike(l, u, true);
      AdvisedIff(table, l, s);
    } else {
      var s := FirstLike(l, w, false);
      AdvisedIff(table, l, s);
    }
  }

  /** Within a table: uniqueness of the same columns always stays enforced. */
  lemma {:induction false} UniquenessStays(table: string, l: seq<Ix>, k: int)
    requires NamesDistinct(l) && 0 <= k < |l| && l[k].unique
    ensures exists s :: 0 <= s < |l| && !Advised(table, l, l[s].name) && l[s].unique && l[s].cols == l[k].cols
  {
    hide Advised;
    var s := FirstLike(l, k, true);
    AdvisedIff(table, l, s);
  }

  /** Within a table: what stays is not redundant. */
  lemma {:induction false} NothingRedundantStays(table: string, l: seq<Ix>, k: int, m: int)
    requires NamesDistinct(l) && 0 <= k < |l| && 0 <= m < |l| && k != m
    requires !Advised(table, l, l[k].name) && !Advised(table, l, l[m].name)
    ensures l[k].cols != l[m].cols && (l[k].cols <= l[m].cols ==> l[k].unique)
  {
    hide Advised;
    AdvisedIff(table, l, k);
    AdvisedIff(table, l, m);
    assert !Loses(l, k, m) && !Loses(l, m, k);
  }

  // ---------------------------------------------------------------- all tables

  datatype Row = Row(oid: int, definition: string, name: string, isUnique: bool, isPrimary: bool)

  /** An index whose columns could be read. */
  datatype Entry = Entry(oid: int, ix: Ix)

  ghost function Entries(rows: seq<Row>): seq<Entry> {
    if rows == [] then []
    else
      var r := rows[|rows| - 1];
      var columns := IndexColumns(r.definition);
      Entries(rows[..|rows| - 1])
      + if columns == [] then [] else [Entry(r.oid, Ix(r.name, columns, r.isUnique || r.isPrimary))]
  }

  function ListOf(d: Dict<int, seq<Ix>>, oid: int): seq<Ix> {
    if oid in d.m then d.m[oid] else []
  }

  function ByTable(entries: seq<Entry>): Dict<int, seq<Ix>> {
    if entries == [] then Dict([], map[])
    else
      var e := entries[|entries| - 1];
      var d := ByTable(entries[..|entries| - 1]);
      d.Put(e.oid, ListOf(d, e.oid) + [e.ix])
  }

  /** How a report names a table; the relations are given by object id. */
  function Label(labels: map<int, string>, oid: int): string {
    if oid in labels then labels[oid] else "None.None"
  }

  function AllItems(labels: map<int, string>, d: Dict<int, seq<Ix>>, oids: seq<int>): seq<Item> {
    if oids == [] then []
    else
      var last := oids[|oids| - 1];
      AllItems(labels, d, oids[..|oids| - 1]) + TableItems(Label(labels, last), ListOf(d, last))
  }

  function Report(labels: map<int, string>, entries: seq<Entry>): seq<Item> {
    AllItems(labels, ByTable(entries), ByTable(entries).keys)
  }

  lemma {:induction false} EntriesStep(rows: seq<Row>, i: int)
    requires 0 <= i < |rows|
    ensures var r := rows[i];
      var columns := IndexColumns(r.definition);
      Entries(rows[..i + 1]) == Entries(rows[..i])
        + if columns == [] then [] else [Entry(r.oid, Ix(r.name, columns, r.isUnique || r.isPrimary))]
  {
    assert rows[..i + 1][..i] == rows[..i];
  }

  lemma {:induction false} ByTableStep(entries: seq<Entry>, e: Entry)
    ensures ByTable(entries + [e]) == ByTable(entries).Put(e.oid, ListOf(ByTable(entries), e.oid) + [e.ix])
  {
    assert (entries + [e])[..|entries|] == entries;
  }

  lemma {:induction false} NothingRead(rows: seq<Row>)
    ensures Entries(rows[..0]) == [] && ByTable([]) == Dict([], map[])
  {
  }

  /** The indexes with readable columns, table by table. */
  method CollectIndexes(rows: seq<Row>) returns (byTable: Dict<int, seq<Ix>>)
    ensures byTable == ByTable(Entries(rows))
  {
    byTable := Dict([], map[]);
    NothingRead(rows);
    hide IndexColumns, Entries, ByTable;
    for i := 0 to |rows|
      invariant byTable == ByTable(Entries(rows[..i]))
    {
      var row := rows[i];
      EntriesStep(rows, i);
      var columns := ReadColumns(row.definition);
      if columns != [] {
        var ix := Ix(row.name, columns, row.isUnique || row.isPrimary);
        ByTableStep(Entries(rows[..i]), Entry(row.oid, ix));
        byTable := byTable.Put(row.oid, ListOf(byTable, row.oid) + [ix]);
      } else {
        assert Entries(rows[..i + 1]) == Entries(rows[..i]);
      }
    }
    assert rows[..|rows|] == rows;
  }

  lemma {:induction false} AllItemsStep(labels: map<int, string>, d: Dict<int, seq<Ix>>, oids: seq<int>, t: int)
    requires 0 <= t < |oids|
    ensures AllItems(labels, d, oids[..t + 1]) ==
      AllItems(labels, d, oids[..t]) + TableItems(Label(labels, oids[t]), ListOf(d, oids[t]))
  {
    assert oids[..t + 1][..t] == oids[..t];
  }

  function Rank(item: Item): nat {
    if item.Duplicate? then 0 else 1
  }

  /** Duplicates come first; then the names of table and index count. */
  predicate ItemLe(a: Item, b: Item) {
    Rank(a) < Rank(b) || (Rank(a) == Rank(b) && TupleLe([a.table, a.index], [b.table, b.index]))
  }

  lemma {:induction false} ItemOrder()
    ensures TotalPreorder(ItemLe)
  {
    TupleOrder();
    hide TupleLe;
  }

  /** Duplicates come first; the items of a kind are in the order of their tables, and of their indexes within these. */
  ghost predicate InOrder(items: seq<Item>) {
    forall i, j :: 0 <= i < j < |items| ==> Precedes(items[i], items[j])
  }

  ghost predicate Precedes(a: Item, b: Item) {
    || (a.Duplicate? && b.PrefixRedundant?)
    || ((a.Duplicate? <==> b.Duplicate?)
        && if a.table == b.table then StringLe(a.index, b.index) else StringLe(a.table, b.table))
  }

  lemma {:induction false} PairLe(x: string, y: string, u: string, v: string)
    ensures TupleLe([x, y], [u, v]) <==> if x == u then StringLe(y, v) else StringLe(x, u)
  {
    StringOrder();
    hide StringLe;
    assert [x, y][1..] == [y] && [u, v][1..] == [v] && [y][1..] == [] && [v][1..] == [];
    assert LexLe(StringLe, [y], [v]) <==> StringLe(y, v) by {
      assert LexLe(StringLe, [], []);
      assert StringLe(y, y);
    }
  }

  lemma {:induction false} SortedInOrder(items: seq<Item>)
    requires Sorted(ItemLe, items)
    ensures InOrder(items)
  {
    hide TupleLe, StringLe;
    forall i, j | 0 <= i < j < |items| ensures Precedes(items[i], items[j]) {
      assert ItemLe(items[i], items[j]);
      PairLe(items[i].table, items[i].index, items[j].table, items[j].index);
    }
  }

  datatype RedundancyReport = RedundancyReport(items: seq<Item>, duplicates: nat, prefixRedundant: nat, total: nat)

  lemma {:induction false} SortedReport(items: seq<Item>)
    ensures var sorted := Sort(ItemLe, items);
      && Sorted(ItemLe, sorted) && |sorted| == |items| && (forall item :: item in sorted <==> item in items)
      && (forall p :: CountIf(p, sorted) == CountIf(p, items))
  {
    hide ItemLe, Sort, CountIf;
    ItemOrder();
    SortSorted(ItemLe, items);
    SameElements(Sort(ItemLe, items), items);
    forall p ensures CountIf(p, Sort(ItemLe, items)) == CountIf(p, items) {
      SortCountIf(ItemLe, p, items);
    }
  }

  function IsDuplicate(item: Item): bool { item.Duplicate? }

  function IsPrefixRedundant(item: Item): bool { item.PrefixRedundant? }

  lemma {:induction false} KindsTotal(items: seq<Item>)
    ensures |items| == CountIf(IsDuplicate, items) + CountIf(IsPrefixRedundant, items)
  {
    if items != [] {
      KindsTotal(items[1..]);
    }
  }

  method DetectIndexRedundancy(labels: map<int, string>, rows: seq<Row>) returns (report: RedundancyReport)
    ensures report.items == Sort(ItemLe, Report(labels, Entries(rows))) && InOrder(report.items)
    ensures forall item :: item in report.items <==> item in Report(labels, Entries(rows))
    ensures report.duplicates == CountIf(IsDuplicate, Report(labels, Entries(rows)))
    ensures report.prefixRedundant == CountIf(IsPrefixRedundant, Report(labels, Entries(rows)))
    ensures report.total == |report.items| == report.duplicates + report.prefixRedundant
  {
    hide Sort, Sorted, ItemLe, CountIf, Report, Entries, InOrder;
    var items := CollectAdvice(labels, rows);
    SortedReport(items);
    items := Sort(ItemLe, items);
    SortedInOrder(items);
    KindsTotal(items);
    report := RedundancyReport(items, CountIf(IsDuplicate, items), CountIf(IsPrefixRedundant, items), |items|);
  }

  /** The advice on all tables, in the order in which it is found. */
  method CollectAdvice(labels: map<int, string>, rows: seq<Row>) returns (items: seq<Item>)
    ensures items == Report(labels, Entries(rows))
  {
    var byTable := CollectIndexes(rows);
    items := [];
    for t := 0 to |byTable.keys|
      invariant items == AllItems(labels, byTable, byTable.keys[..t])
    {
      AllItemsStep(labels, byTable, byTable.keys, t);
      var found := DetectInTable(Label(labels, byTable.keys[t]), ListOf(byTable, byTable.keys[t]));
      items := items + found;
    }
    assert byTable.keys[..|byTable.keys|] == byTable.keys;
  }

  method DetectInTable(table: string, l: seq<Ix>) returns (items: seq<Item>)
    ensures items == TableItems(table, l)
  {
    hide PairItems;
    items := [];
    for i := 0 to |l|
      invariant items == ItemsUpTo(table, l, i)
    {
      for j := i + 1 to |l|
        invariant items == ItemsUpTo(table, l, i) + ItemsWith(table, l, i, j)
      {
        items := DetectInPair(table, l[i], l[j], items);
      }
    }
  }

  method DetectInPair(table: string, a: Ix, b: Ix, items: seq<Item>) returns (r: seq<Item>)
    ensures r == items + PairItems(table, a, b)
  {
    r := items;
    if a.cols == b.cols {
      var drop := if a.unique && !b.unique then b.name else if b.unique && !a.unique then a.name else b.name;
      r := r + [Duplicate(table, drop, if drop == b.name then a.name else b.name, a.cols)];
      return;
    }
    if a.cols <= b.cols {
      if !a.unique {
        r := r + [PrefixRedundant(table, a.name, b.name, a.cols)];
      }
    } else if b.cols <= a.cols {
      if !b.unique {
        r := r + [PrefixRedundant(table, b.name, a.name, b.cols)];
      }
    }
  }

  // ---------------------------------------------------------------- following all the advice at once

  /** No two of the read indexes have the same table and the same name. */
  ghost predicate EntriesDistinct(labels: map<int, string>, entries: seq<Entry>) {
    forall i, j :: 0 <= i < j < |entries| ==>
      Label(labels, entries[i].oid) != Label(labels, entries[j].oid) || entries[i].ix.name != entries[j].ix.name
  }

  /** The index stays when every index named in the report is dropped. */
  ghost predicate Stays(labels: map<int, string>, entries: seq<Entry>, e: Entry) {
    && e in entries
    && forall item :: item in Report(labels, entries) ==> (item.table, item.index) != (Label(labels, e.oid), e.ix.name)
  }

  ghost function TableOf(entries: seq<Entry>, oid: int): seq<Ix> {
    if entries == [] then []
    else
      var e := entries[|entries| - 1];
      TableOf(entries[..|entries| - 1], oid) + if e.oid == oid then [e.ix] else []
  }

  lemma {:induction false} ByTableMeaning(entries: seq<Entry>, oid: int)
    ensures ListOf(ByTable(entries), oid) == TableOf(entries, oid)
    ensures oid in ByTable(entries).keys <==> oid in ByTable(entries).m
  {
    if entries != [] {
      ByTableMeaning(entries[..|entries| - 1], oid);
    }
  }

  lemma {:induction false} TableOfMeaning(entries: seq<Entry>, oid: int, ix: Ix)
    ensures ix in TableOf(entries, oid) <==> Entry(oid, ix) in entries
  {
    if entries != [] {
      var init, e := entries[..|entries| - 1], entries[|entries| - 1];
      TableOfMeaning(init, oid, ix);
      assert entries == init + [e];
    }
  }

  lemma {:induction false} TableOfDistinct(labels: map<int, string>, entries: seq<Entry>, oid: int)
    requires EntriesDistinct(labels, entries)
    ensures NamesDistinct(TableOf(entries, oid))
  {
    if entries != [] {
      var init, e := entries[..|entries| - 1], entries[|entries| - 1];
      TableOfDistinct(labels, init, oid);
      if e.oid == oid {
        var l := TableOf(init, oid);
        forall i | 0 <= i < |l| ensures l[i].name != e.ix.name {
          TableOfMeaning(init, oid, l[i]);
          var k :| 0 <= k < |init| && init[k] == Entry(oid, l[i]);
          assert entries[k] == init[k];
        }
      }
    }
  }

  lemma {:induction false} AllItemsMeaning(labels: map<int, string>, d: Dict<int, seq<Ix>>, oids: seq<int>, item: Item)
    ensures item in AllItems(labels, d, oids) <==>
      exists oid :: oid in oids && item in TableItems(Label(labels, oid), ListOf(d, oid))
  {
    hide TableItems;
    if oids != [] {
      var init, last := oids[..|oids| - 1], oids[|oids| - 1];
      AllItemsMeaning(labels, d, init, item);
      assert oids == init + [last];
    }
  }

  lemma {:induction false} ReportMeaning(labels: map<int, string>, entries: seq<Entry>, item: Item)
    ensures item in Report(labels, entries) <==>
      exists oid :: item in TableItems(Label(labels, oid), TableOf(entries, oid))
  {
    var d := ByTable(entries);
    AllItemsMeaning(labels, d, d.keys, item);
    forall oid ensures ListOf(d, oid) == TableOf(entries, oid) && (oid in d.keys <==> oid in d.m) {
      ByTableMeaning(entries, oid);
    }
    hide TableItems, AllItems, ByTable, TableOf;
    forall oid ensures oid !in d.keys ==> TableItems(Label(labels, oid), TableOf(entries, oid)) == [] {
      NoItems(Label(labels, oid));
    }
  }

  lemma {:induction false} NoItems(table: string)
    ensures TableItems(table, []) == []
  {
  }

  /** Advice names a table and one of its indexes. */
  lemma {:induction false} AdviceIsLocal(table: string, l: seq<Ix>, item: Item) returns (k: int)
    requires item in TableItems(table, l)
    ensures item.table == table && 0 <= k < |l| && l[k].name == item.index
  {
    TableItemsMeaning(table, l, item);
    var i, j :| FromPair(table, l, i, j, item);
    k := if item.index == l[i].name then i else j;
  }

  lemma {:induction false} StaysIff(labels: map<int, string>, entries: seq<Entry>, e: Entry)
    requires EntriesDistinct(labels, entries) && e in entries
    ensures Stays(labels, entries, e) <==> !Advised(Label(labels, e.oid), TableOf(entries, e.oid), e.ix.name)
  {
    hide Report, TableItems, TableOf, Label;
    var table := Label(labels, e.oid);
    if Advised(table, TableOf(entries, e.oid), e.ix.name) {
      var item :| item in TableItems(table, TableOf(entries, e.oid)) && item.index == e.ix.name;
      var k := AdviceIsLocal(table, TableOf(entries, e.oid), item);
      ReportMeaning(labels, entries, item);
    }
    if item :| item in Report(labels, entries) && item.table == table && item.index == e.ix.name {
      ReportMeaning(labels, entries, item);
      var oid :| item in TableItems(Label(labels, oid), TableOf(entries, oid));
      var k := AdviceIsLocal(Label(labels, oid), TableOf(entries, oid), item);
      var ix := TableOf(entries, oid)[k];
      TableOfMeaning(entries, oid, ix);
      SameEntry(labels, entries, e, Entry(oid, ix));
    }
  }

  lemma {:induction false} SameEntry(labels: map<int, string>, entries: seq<Entry>, a: Entry, b: Entry)
    requires EntriesDistinct(labels, entries) && a in entries && b in entries
    requires Label(labels, a.oid) == Label(labels, b.oid) && a.ix.name == b.ix.name
    ensures a == b
  {
    var i :| 0 <= i < |entries| && entries[i] == a;
    var j :| 0 <= j < |entries| && entries[j] == b;
    hide Label;
    assert i == j;
  }

  /** The position of a read index in the list of its table. */
  lemma {:induction false} Position(entries: seq<Entry>, e: Entry) returns (k: int)
    requires e in entries
    ensures 0 <= k < |TableOf(entries, e.oid)| && TableOf(entries, e.oid)[k] == e.ix
  {
    TableOfMeaning(entries, e.oid, e.ix);
    k :| 0 <= k < |TableOf(entries, e.oid)| && TableOf(entries, e.oid)[k] == e.ix;
  }

  lemma {:induction false} EntryAt(labels: map<int, string>, entries: seq<Entry>, oid: int, k: int)
    requires EntriesDistinct(labels, entries) && 0 <= k < |TableOf(entries, oid)|
    ensures var s := Entry(oid, TableOf(entries, oid)[k]);
      && s in entries
      && (Stays(labels, entries, s) <==> !Advised(Label(labels, oid), TableOf(entries, oid), s.ix.name))
  {
    TableOfMeaning(entries, oid, TableOf(entries, oid)[k]);
    StaysIff(labels, entries, Entry(oid, TableOf(entries, oid)[k]));
  }

  /** Dropping everything the report names leaves, for each index, one whose columns extend it. */
  lemma {:induction false} ScansStayServed(labels: map<int, string>, entries: seq<Entry>, e: Entry)
    requires EntriesDistinct(labels, entries) && e in entries
    ensures exists s :: Stays(labels, entries, s) && s.oid == e.oid && e.ix.cols <= s.ix.cols
  {
    var table, l := Label(labels, e.oid), TableOf(entries, e.oid);
    var k := Position(entries, e);
    TableOfDistinct(labels, entries, e.oid);
    hide TableOf, Label, Advised, Stays;
    SomethingWiderStays(table, l, k);
    var m :| 0 <= m < |l| && !Advised(table, l, l[m].name) && l[k].cols <= l[m].cols;
    EntryAt(labels, entries, e.oid, m);
    assert Stays(labels, entries, Entry(e.oid, l[m]));
  }

  /** Dropping everything the report names leaves, for each unique index, a unique one on the same columns. */
  lemma {:induction false} UniquenessStaysEnforced(labels: map<int, string>, entries: seq<Entry>, e: Entry)
    requires EntriesDistinct(labels, entries) && e in entries && e.ix.unique
    ensures exists s :: Stays(labels, entries, s) && s.oid == e.oid && s.ix.unique && s.ix.cols == e.ix.cols
  {
    var table, l := Label(labels, e.oid), TableOf(entries, e.oid);
    var k := Position(entries, e);
    TableOfDistinct(labels, entries, e.oid);
    hide TableOf, Label, Advised, Stays;
    UniquenessStays(table, l, k);
    var m :| 0 <= m < |l| && !Advised(table, l, l[m].name) && l[m].unique && l[m].cols == l[k].cols;
    EntryAt(labels, entries, e.oid, m);
    assert Stays(labels, entries, Entry(e.oid, l[m]));
  }

  /** One round is enough: among what stays there are no duplicates, and only unique indexes are prefixes. */
  lemma {:induction false} OneRoundIsEnough(labels: map<int, string>, entries: seq<Entry>, a: Entry, b: Entry)
    requires EntriesDistinct(labels, entries) && Stays(labels, entries, a) && Stays(labels, entries, b)
    requires a.oid == b.oid && a != b
    ensures a.ix.cols != b.ix.cols && (a.ix.cols <= b.ix.cols ==> a.ix.unique)
  {
    var table, l := Label(labels, a.oid), TableOf(entries, a.oid);
    var i := Position(entries, a);
    var j := Position(entries, b);
    TableOfDistinct(labels, entries, a.oid);
    StaysIff(labels, entries, a);
    StaysIff(labels, entries, b);
    hide TableOf, Label, Advised, Stays;
    NothingRedundantStays(table, l, i, j);
  }

  lemma {:induction false} TwiceInTable(a: Entry)
    ensures TableOf([a, a], a.oid) == [a.ix, a.ix]
  {
    assert [a, a][..1] == [a] && [a][..0] == [];
    assert TableOf([a], a.oid) == [a.ix];
  }

  lemma {:induction false} TwiceDropped(table: string, ix: Ix)
    ensures var item := Duplicate(table, ix.name, ix.name, ix.cols);
      ix.cols != [] ==> item in TableItems(table, [ix, ix])
  {
    if ix.cols != [] {
      var item := Duplicate(table, ix.name, ix.name, ix.cols);
      assert PairItems(table, ix, ix)[0] == item;
      assert FromPair(table, [ix, ix], 0, 1, item);
      hide FromPair, PairItems;
      TableItemsMeaning(table, [ix, ix], item);
    }
  }

  /** With a shared name the advice is not safe: two duplicates without a name are both dropped. */
  lemma {:induction false} SharedNamesAreUnsafe()
    ensures var a := Entry(1, Ix("", ["id"], true));
      && !EntriesDistinct(map[], [a, a])
      && forall s :: s in [a, a] ==> !Stays(map[], [a, a], s)
  {
    hide TableItems, TableOf, Report, Label;
    var a := Entry(1, Ix("", ["id"], true));
    var entries := [a, a];
    var item := Duplicate(Label(map[], 1), "", "", ["id"]);
    TwiceInTable(a);
    TwiceDropped(Label(map[], 1), a.ix);
    ReportMeaning(map[], entries, item);
    assert entries[0].oid == entries[1].oid;
  }

  /** An index that the report says is kept may itself be advised against. */
  lemma {:induction false} KeptMayBeDropped()
    ensures var l := [Ix("a", ["x"], false), Ix("b", ["x", "y"], false), Ix("c", ["x", "y", "z"], false)];
      && PrefixRedundant("t", "a", "b", ["x"]) in TableItems("t", l)
      && Advised("t", l, "b")
  {
    var l := [Ix("a", ["x"], false), Ix("b", ["x", "y"], false), Ix("c", ["x", "y", "z"], false)];
    var first, second := PrefixRedundant("t", "a", "b", ["x"]), PrefixRedundant("t", "b", "c", ["x", "y"]);
    assert ["x"] <= ["x", "y"] && ["x", "y"] <= ["x", "y", "z"];
    assert FromPair("t", l, 0, 1, first);
    assert FromPair("t", l, 1, 2, second);
    TableItemsMeaning("t", l, first);
    TableItemsMeaning("t", l, second);
    assert second.index == "b";
  }
}
