/**
 Indexes on named columns, as their definitions write them and as backend/app/spec/index_redundancy.py reads them:
 for which names the advice is safe.
 */
module WrittenIndexes {
  import opened Dicts
  import opened Text
  import opened IndexDefinitions
  import opened IndexRedundancy

  // ---------------------------------------------------------------- how a list of columns is read

  /** A name that the reader takes as it is: no comma, parenthesis, quote or blank. */
  predicate IsSimple(name: string) {
    name != "" && forall k :: 0 <= k < |name| ==>
      name[k] != ',' && name[k] != '(' && name[k] != '"' && !IsSpace(name[k])
  }

  lemma {:induction false} StripQuotes(name: string)
    requires name != "" && '"' !in name
    ensures Strip(['"'] + name + ['"'], IsQuote) == name
  {
    var q := ['"'] + name + ['"'];
    var left := name + ['"'];
    assert q[1..] == left && left[0] == name[0];
    assert StripLeft(left, IsQuote) == left;
    assert left[..|left| - 1] == name;
    assert StripRight(name, IsQuote) == name;
  }

  lemma {:induction false} WholeWord(s: string)
    requires forall k :: 0 <= k < |s| ==> !IsSpace(s[k])
    ensures UpTo(s, IsSpace) == s
  {
    if s != "" {
      WholeWord(s[1..]);
      assert [s[0]] + s[1..] == s;
    }
  }

  lemma {:induction false} StripLead(q: string, lead: string)
    requires q != "" && !IsSpace(q[0]) && !IsSpace(q[|q| - 1]) && (lead == "" || lead == " ")
    ensures Strip(lead + q, IsSpace) == q
  {
    StripEnds(q, IsSpace);
    if lead == " " {
      assert (" " + q)[1..] == q;
    } else {
      assert lead + q == q;
    }
  }

  lemma {:induction false} SimpleWord(name: string)
    requires IsSimple(name)
    ensures FirstWord(name) == name && Strip(name, IsQuote) == name && Q(name) == ['"'] + name + ['"']
  {
    hide UpTo, Strip;
    EscapePlain(name);
    StripEnds(name, IsSpace);
    StripEnds(name, IsQuote);
    WholeWord(name);
  }

  /** The parts into which the commas split a quoted name. */
  function Pieces(c: string): seq<string> {
    Split(Q(c), ',')
  }

  function PiecesOf(columns: seq<string>): seq<string> {
    if columns == [] then [] else Pieces(columns[0]) + PiecesOf(columns[1..])
  }

  /** What a list of columns is read as; nothing if one of them looks like an expression. */
  function Reading(columns: seq<string>): seq<string> {
    ColumnsIn(PiecesOf(columns))
  }

  /** Two parts that are read alike. */
  predicate Alike(a: string, b: string) {
    Word(a) == Word(b) && ('(' in a <==> '(' in b)
  }

  predicate AllAlike(a: seq<string>, b: seq<string>) {
    |a| == |b| && forall k :: 0 <= k < |a| ==> Alike(a[k], b[k])
  }

  lemma {:induction false} AlikeColumns(a: seq<string>, b: seq<string>)
    requires AllAlike(a, b)
    ensures ColumnsIn(a) == ColumnsIn(b)
  {
    hide Word;
    if forall p :: p in a ==> Word(p) != "" && '(' !in p {
      forall p | p in b ensures Word(p) != "" && '(' !in p {
        var k :| 0 <= k < |b| && b[k] == p;
        assert a[k] in a && Alike(a[k], b[k]);
      }
    } else {
      var k :| 0 <= k < |a| && !(Word(a[k]) != "" && '(' !in a[k]);
      assert b[k] in b && Alike(a[k], b[k]);
    }
  }

  lemma {:induction false} BlankAlike(s: string)
    ensures Alike(" " + s, s)
  {
    assert (" " + s)[1..] == s;
    assert Strip(" " + s, IsSpace) == Strip(s, IsSpace);
    assert '(' in " " + s <==> '(' in s by { InBlank(s); }
  }

  lemma {:induction false} InBlank(s: string)
    ensures '(' in " " + s <==> '(' in s
  {
  }

  lemma {:induction false} SplitJoin(a: string, b: string)
    ensures Split(a + [','] + b, ',') == Split(a, ',') + Split(b, ',')
  {
    var all := a + [','] + b;
    if a == [] {
      assert all == [','] + b && all[1..] == b;
    } else {
      assert all[1..] == a[1..] + [','] + b && all[0] == a[0];
      SplitJoin(a[1..], b);
    }
  }

  lemma {:induction false} SplitBlank(s: string)
    ensures Split(" " + s, ',') == [" " + Split(s, ',')[0]] + Split(s, ',')[1..]
  {
    assert (" " + s)[1..] == s;
  }

  lemma {:induction false} LeadAlike(s: string, lead: string, pieces: seq<string>)
    requires (lead == "" || lead == " ") && AllAlike(Split(s, ','), pieces)
    ensures AllAlike(Split(lead + s, ','), pieces)
  {
    hide Alike, Split;
    if lead == " " {
      SplitBlank(s);
      var first := Split(s, ',')[0];
      BlankAlike(first);
      assert Alike(first, pieces[0]);
      AlikeTrans(" " + first, first, pieces[0]);
      assert forall k :: 0 < k < |pieces| ==> Split(" " + s, ',')[k] == Split(s, ',')[k];
    } else {
      assert lead + s == s;
    }
  }

  lemma {:induction false} AlikeTrans(a: string, b: string, c: string)
    requires Alike(a, b) && Alike(b, c)
    ensures Alike(a, c)
  {
    hide Word;
  }

  /** How a definition shows a column: quoted, or bare if its name is simple. */
  predicate ShownAs(c: string, text: string) {
    text == Q(c) || (text == c && IsSimple(c))
  }

  predicate Shown(columns: seq<string>, texts: seq<string>) {
    |columns| == |texts| && forall k :: 0 <= k < |columns| ==> ShownAs(columns[k], texts[k])
  }

  lemma {:induction false} QuotedHas(name: string, c: char)
    requires c != '"'
    ensures c in Q(name) <==> c in name
  {
    EscapedHas(name, c);
    assert Q(name) == ['"'] + Escape(name) + ['"'];
    hide Q;
  }

  lemma {:induction false} EscapedHas(name: string, c: char)
    requires c != '"'
    ensures c in Escape(name) <==> c in name
  {
    if name != [] {
      EscapedHas(name[1..], c);
      assert name == [name[0]] + name[1..];
      assert c in Escaped(name[0]) <==> c == name[0];
    }
  }

  lemma {:induction false} BareAlike(c: string)
    requires IsSimple(c)
    ensures Alike(c, Q(c))
  {
    SimpleWord(c);
    StripEnds(c, IsSpace);
    var q := Q(c);
    StripEnds(q, IsSpace);
    assert '"' !in c;
    StripQuotes(c);
    QuotedHas(c, '(');
    hide Strip, FirstWord, Q;
  }

  lemma {:induction false} ShownAlike(c: string, text: string)
    requires ShownAs(c, text)
    ensures AllAlike(Split(text, ','), Pieces(c))
  {
    if text != Q(c) {
      assert ',' !in c;
      QuotedHas(c, ',');
      SplitWhole(c, ',');
      SplitWhole(Q(c), ',');
      BareAlike(c);
      hide Alike, Q;
    }
  }

  lemma {:induction false} AlikeConcat(a: seq<string>, b: seq<string>, c: seq<string>, d: seq<string>)
    requires AllAlike(a, b) && AllAlike(c, d)
    ensures AllAlike(a + c, b + d)
  {
    hide Alike;
  }

  lemma {:induction false} ListAlike(columns: seq<string>, texts: seq<string>, lead: string)
    requires Shown(columns, texts) && columns != [] && (lead == "" || lead == " ")
    ensures AllAlike(Split(lead + Join(texts, ", "), ','), PiecesOf(columns))
    decreases |columns|
  {
    hide ShownAs, AllAlike, Split, Pieces;
    ShownAlike(columns[0], texts[0]);
    LeadAlike(texts[0], lead, Pieces(columns[0]));
    if |columns| == 1 {
      assert PiecesOf(columns) == Pieces(columns[0]) + [] == Pieces(columns[0]);
    } else {
      ListAlike(columns[1..], texts[1..], " ");
      var rest := " " + Join(texts[1..], ", ");
      assert ", " == [','] + " ";
      assert lead + Join(texts, ", ") == lead + texts[0] + [','] + rest;
      SplitJoin(lead + texts[0], rest);
      AlikeConcat(Split(lead + texts[0], ','), Pieces(columns[0]), Split(rest, ','), PiecesOf(columns[1..]));
    }
  }

  /** A list that shows the columns is read as the columns are. */
  lemma {:induction false} ListReads(columns: seq<string>, texts: seq<string>)
    requires Shown(columns, texts)
    ensures ColumnsIn(Split(Join(texts, ", "), ',')) == Reading(columns)
  {
    hide ShownAs, Split, Pieces, ColumnsIn;
    if columns == [] {
      NothingShown();
    } else {
      ListAlike(columns, texts, "");
      assert "" + Join(texts, ", ") == Join(texts, ", ");
      AlikeColumns(Split(Join(texts, ", "), ','), PiecesOf(columns));
    }
  }

  lemma {:induction false} NothingShown()
    ensures ColumnsIn(Split("", ',')) == [] && ColumnsIn([]) == []
  {
    assert Split("", ',') == [""] && "" in [""] && Word("") == "";
  }

  function Quoted(columns: seq<string>): seq<string> {
    if columns == [] then [] else [Q(columns[0])] + Quoted(columns[1..])
  }

  lemma {:induction false} QuotedShown(columns: seq<string>)
    ensures Shown(columns, Quoted(columns)) && JoinQuoted(columns) == Join(Quoted(columns), ", ")
  {
    hide Q;
    if columns != [] {
      QuotedShown(columns[1..]);
      assert Quoted(columns)[1..] == Quoted(columns[1..]);
    }
  }

  /** For all names, a recommended index is read as its columns are, unless its text looks like a partial index. */
  lemma {:induction false} RecommendedIsRead(name: string, schema: string, table: string, columns: seq<string>)
    ensures var text := CreateIndex(name, schema, table, columns);
      IndexColumns(text) == if Contains(LowerAll(text), WHERE) then [] else Reading(columns)
  {
    hide CreateIndex, IsFirstGroup, JoinQuoted, ColumnsIn, Split, Contains, GroupOf, LowerAll, Reading;
    var text := CreateIndex(name, schema, table, columns);
    RecommendedGroup(name, schema, table, columns, GroupOf(text));
    QuotedShown(columns);
    ListReads(columns, Quoted(columns));
  }

  // ---------------------------------------------------------------- what the reading keeps apart

  /** The name is read as names, not as an expression or nothing. */
  predicate Legible(c: string) {
    forall p :: p in Pieces(c) ==> Word(p) != "" && '(' !in p
  }

  /** What the one name is read as; several names if it has commas. */
  function Reads(c: string): seq<string> {
    ColumnsIn(Pieces(c))
  }

  predicate AllLegible(columns: seq<string>) {
    forall k :: 0 <= k < |columns| ==> Legible(columns[k])
  }

  predicate Plain(parts: seq<string>) {
    forall p :: p in parts ==> Word(p) != "" && '(' !in p
  }

  lemma {:induction false} ColumnsConcat(a: seq<string>, b: seq<string>)
    ensures ColumnsIn(a + b) == if Plain(a) && Plain(b) then ColumnsIn(a) + ColumnsIn(b) else []
  {
    hide Word, ColumnIn;
    assert Plain(a + b) <==> Plain(a) && Plain(b) by {
      assert forall p :: p in a + b <==> p in a || p in b;
    }
  }

  lemma {:induction false} ReadingLegible(columns: seq<string>)
    ensures Plain(PiecesOf(columns)) <==> AllLegible(columns)
    ensures Reading(columns) == [] <==> columns == [] || !AllLegible(columns)
    ensures columns != [] ==>
      Reading(columns) == if AllLegible(columns) then Reads(columns[0]) + Reading(columns[1..]) else []
  {
    hide Pieces, ColumnsIn, Plain, Legible, AllLegible;
    if columns == [] {
      NothingRead();
    } else {
      var c, rest := columns[0], columns[1..];
      ReadingLegible(rest);
      ColumnsConcat(Pieces(c), PiecesOf(rest));
      PlainConcat(Pieces(c), PiecesOf(rest));
      assert Plain(Pieces(c)) <==> Legible(c) by {
        LegibleIsPlain(c);
      }
      AllLegibleCons(columns);
      if Legible(c) {
        ReadsSomething(c);
      }
    }
  }

  lemma {:induction false} NothingRead()
    ensures Plain([]) && AllLegible([]) && ColumnsIn([]) == []
  {
  }

  lemma {:induction false} PlainConcat(a: seq<string>, b: seq<string>)
    ensures Plain(a + b) <==> Plain(a) && Plain(b)
  {
    hide Word;
    assert forall p :: p in a + b <==> p in a || p in b;
  }

  lemma {:induction false} LegibleIsPlain(c: string)
    ensures Plain(Pieces(c)) <==> Legible(c)
  {
    hide Word, Pieces;
  }

  lemma {:induction false} AllLegibleCons(columns: seq<string>)
    requires columns != []
    ensures AllLegible(columns) <==> Legible(columns[0]) && AllLegible(columns[1..])
  {
    hide Legible;
    assert columns == [columns[0]] + columns[1..];
  }

  lemma {:induction false} ReadsSomething(c: string)
    requires Legible(c)
    ensures Reads(c) != []
  {
    hide Word, ColumnIn;
  }

  /** No legible name reads like another one, or like the beginning of another one. */
  ghost predicate KeptApart(names: iset<string>) {
    forall c, d :: c in names && d in names && Legible(c) && Legible(d) && Reads(c) <= Reads(d) ==> c == d
  }

  ghost predicate Over(columns: seq<string>, names: iset<string>) {
    forall c :: c in columns ==> c in names
  }

  lemma {:induction false} PrefixesCompare<T>(a: seq<T>, x: seq<T>, b: seq<T>, y: seq<T>)
    requires a + x <= b + y
    ensures a <= b || b <= a
    ensures a == b ==> x <= y
  {
    var all := b + y;
    assert a <= all;
    assert forall k :: 0 <= k < |a| ==> a[k] == all[k];
    if |a| <= |b| {
      assert a == all[..|a|] == b[..|a|];
    } else {
      assert b == all[..|b|] == a[..|b|];
    }
    if a == b {
      assert x == (a + x)[|a|..] && y == all[|a|..];
      assert a + x == all[..|a + x|];
      assert x == all[|a|..][..|x|];
    }
  }

  /** Where names are kept apart, a list that reads like the beginning of another one is its beginning. */
  lemma {:induction false} ReadingReflects(names: iset<string>, a: seq<string>, b: seq<string>)
    requires KeptApart(names) && Over(a, names) && Over(b, names) && AllLegible(a) && AllLegible(b)
    requires Reading(a) <= Reading(b)
    ensures a <= b
  {
    hide Legible, Reads, Reading;
    ReadingLegible(a);
    ReadingLegible(b);
    if a != [] {
      assert |Reading(b)| >= |Reading(a)| > 0;
      var c, d := a[0], b[0];
      assert Legible(c) && Legible(d);
      PrefixesCompare(Reads(c), Reading(a[1..]), Reads(d), Reading(b[1..]));
      assert c in names && d in names;
      assert c == d;
      ReadingReflects(names, a[1..], b[1..]);
      assert a == [c] + a[1..] && b == [d] + b[1..];
    }
  }

  // ---------------------------------------------------------------- for which names the advice is safe

  /** An index on named columns, as the reader sees it. */
  function ReadEntry(e: Entry): Entry {
    e.(ix := e.ix.(cols := Reading(e.ix.cols)))
  }

  /** The indexes that the reader does not pass over. */
  function ReadEntries(w: seq<Entry>): seq<Entry> {
    if w == [] then []
    else
      var e := w[|w| - 1];
      ReadEntries(w[..|w| - 1]) + if Reading(e.ix.cols) == [] then [] else [ReadEntry(e)]
  }

  /** A row whose definition shows the columns of the index. */
  ghost predicate RowShows(r: Row, e: Entry) {
    && r.oid == e.oid && r.name == e.ix.name && (r.isUnique || r.isPrimary) == e.ix.unique
    && exists texts | Shown(e.ix.cols, texts) :: DefinitionLists(r.definition, texts)
  }

  /** The first group of the definition holds the given texts, and nothing makes it look partial. */
  ghost predicate DefinitionLists(definition: string, texts: seq<string>) {
    GroupOf(definition) == Some(Join(texts, ", ")) && !Contains(LowerAll(definition), WHERE)
  }

  lemma {:induction false} RowReads(r: Row, e: Entry)
    requires RowShows(r, e)
    ensures IndexColumns(r.definition) == Reading(e.ix.cols)
  {
    hide Shown, ColumnsIn, Split, Join, Contains, LowerAll, GroupOf, Reading;
    var texts :| Shown(e.ix.cols, texts) && DefinitionLists(r.definition, texts);
    ListReads(e.ix.cols, texts);
  }

  /** The detector works on the indexes as they are read. */
  lemma {:induction false} RowsAreRead(rows: seq<Row>, w: seq<Entry>)
    requires |rows| == |w| && forall k :: 0 <= k < |w| ==> RowShows(rows[k], w[k])
    ensures Entries(rows) == ReadEntries(w)
  {
    hide RowShows, IndexColumns, Reading;
    if w != [] {
      RowsAreRead(rows[..|rows| - 1], w[..|w| - 1]);
      RowReads(rows[|rows| - 1], w[|w| - 1]);
      RowNames(rows[|rows| - 1], w[|w| - 1]);
    }
  }

  lemma {:induction false} RowNames(r: Row, e: Entry)
    requires RowShows(r, e)
    ensures r.oid == e.oid && r.name == e.ix.name && (r.isUnique || r.isPrimary) == e.ix.unique
  {
  }

  /** No advice names the index. */
  ghost predicate Unnamed(labels: map<int, string>, w: seq<Entry>, oid: int, name: string) {
    forall item :: item in Report(labels, ReadEntries(w)) ==> (item.table, item.index) != (Label(labels, oid), name)
  }

  /** The index is still there when every index named in the report is dropped. */
  ghost predicate Remains(labels: map<int, string>, w: seq<Entry>, e: Entry) {
    e in w && Unnamed(labels, w, e.oid, e.ix.name)
  }

  /** The columns of the index still lead an index of its table. */
  ghost predicate Served(labels: map<int, string>, w: seq<Entry>, e: Entry) {
    exists s :: Remains(labels, w, s) && s.oid == e.oid && e.ix.cols <= s.ix.cols
  }

  /** The columns of the index are still unique. */
  ghost predicate Enforced(labels: map<int, string>, w: seq<Entry>, e: Entry) {
    exists s :: Remains(labels, w, s) && s.oid == e.oid && s.ix.unique && s.ix.cols == e.ix.cols
  }

  /** Dropping everything that the report names loses no index that serves a scan or enforces a constraint. */
  ghost predicate SafeAdvice(labels: map<int, string>, w: seq<Entry>) {
    forall e :: e in w ==> Served(labels, w, e) && (e.ix.unique ==> Enforced(labels, w, e))
  }

  ghost predicate AllOver(w: seq<Entry>, names: iset<string>) {
    forall e :: e in w ==> Over(e.ix.cols, names)
  }

  lemma {:induction false} ReadMeaning(w: seq<Entry>, r: Entry)
    ensures r in ReadEntries(w) <==> exists e :: e in w && Reading(e.ix.cols) != [] && r == ReadEntry(e)
  {
    hide Reading;
    if w != [] {
      var init, e := w[..|w| - 1], w[|w| - 1];
      ReadMeaning(init, r);
      assert w == init + [e];
    }
  }

  lemma {:induction false} ReadDistinct(labels: map<int, string>, w: seq<Entry>)
    requires EntriesDistinct(labels, w)
    ensures EntriesDistinct(labels, ReadEntries(w))
  {
    hide Reading, Label;
    if w != [] {
      var init, e := w[..|w| - 1], w[|w| - 1];
      ReadDistinct(labels, init);
      var l := ReadEntries(init);
      forall i | 0 <= i < |l|
        ensures Label(labels, l[i].oid) != Label(labels, e.oid) || l[i].ix.name != e.ix.name
      {
        ReadMeaning(init, l[i]);
        var k :| 0 <= k < |init| && l[i] == ReadEntry(init[k]);
        assert w[k] == init[k];
      }
    }
  }

  /** An index that is passed over is not named: its name is no other's. */
  lemma {:induction false} PassedOverRemains(labels: map<int, string>, w: seq<Entry>, e: Entry)
    requires EntriesDistinct(labels, w) && e in w && Reading(e.ix.cols) == []
    ensures Remains(labels, w, e)
  {
    hide Report, TableItems, TableOf, Label, Reading, ReadEntries;
    if item :| item in Report(labels, ReadEntries(w)) && (item.table, item.index) == (Label(labels, e.oid), e.ix.name) {
      var r := NamedEntry(labels, ReadEntries(w), item);
      ReadMeaning(w, r);
      var s :| s in w && Reading(s.ix.cols) != [] && r == ReadEntry(s);
      SameEntry(labels, w, e, s);
    }
  }

  /** The read index that a piece of advice names. */
  lemma {:induction false} NamedEntry(labels: map<int, string>, entries: seq<Entry>, item: Item) returns (r: Entry)
    requires item in Report(labels, entries)
    ensures r in entries && item.table == Label(labels, r.oid) && item.index == r.ix.name
  {
    hide Report, TableItems, TableOf, Label;
    ReportMeaning(labels, entries, item);
    var oid :| item in TableItems(Label(labels, oid), TableOf(entries, oid));
    var k := AdviceIsLocal(Label(labels, oid), TableOf(entries, oid), item);
    r := Entry(oid, TableOf(entries, oid)[k]);
    TableOfMeaning(entries, oid, r.ix);
  }

  /** A read index that stays is one that remains. */
  lemma {:induction false} StayerRemains(labels: map<int, string>, w: seq<Entry>, r: Entry) returns (s: Entry)
    requires Stays(labels, ReadEntries(w), r)
    ensures Remains(labels, w, s) && Reading(s.ix.cols) != [] && r == ReadEntry(s)
  {
    hide Report, Label, Reading, ReadEntries;
    ReadMeaning(w, r);
    s :| s in w && Reading(s.ix.cols) != [] && r == ReadEntry(s);
  }

  lemma {:induction false} ServedWhenApart(labels: map<int, string>, w: seq<Entry>, names: iset<string>, e: Entry)
    requires EntriesDistinct(labels, w) && AllOver(w, names) && KeptApart(names) && e in w
    ensures Served(labels, w, e)
  {
    hide Stays, Remains, EntriesDistinct, KeptApart, Reading, ReadEntries;
    if Reading(e.ix.cols) == [] {
      PassedOverRemains(labels, w, e);
    } else {
      ReadMeaning(w, ReadEntry(e));
      ReadDistinct(labels, w);
      ScansStayServed(labels, ReadEntries(w), ReadEntry(e));
      var r :| Stays(labels, ReadEntries(w), r) && r.oid == e.oid && Reading(e.ix.cols) <= r.ix.cols;
      var s := StayerRemains(labels, w, r);
      RemainsIn(labels, w, s);
      ReadingLegible(e.ix.cols);
      ReadingLegible(s.ix.cols);
      ReadingReflects(names, e.ix.cols, s.ix.cols);
    }
  }

  lemma {:induction false} RemainsIn(labels: map<int, string>, w: seq<Entry>, s: Entry)
    requires Remains(labels, w, s)
    ensures s in w
  {
  }

  lemma {:induction false} EnforcedWhenApart(labels: map<int, string>, w: seq<Entry>, names: iset<string>, e: Entry)
    requires EntriesDistinct(labels, w) && AllOver(w, names) && KeptApart(names) && e in w && e.ix.unique
    ensures Enforced(labels, w, e)
  {
    hide Stays, Remains, EntriesDistinct, KeptApart, Reading, ReadEntries;
    if Reading(e.ix.cols) == [] {
      PassedOverRemains(labels, w, e);
    } else {
      ReadMeaning(w, ReadEntry(e));
      ReadDistinct(labels, w);
      UniquenessStaysEnforced(labels, ReadEntries(w), ReadEntry(e));
      var r :| Stays(labels, ReadEntries(w), r) && r.oid == e.oid && r.ix.unique && r.ix.cols == Reading(e.ix.cols);
      var s := StayerRemains(labels, w, r);
      RemainsIn(labels, w, s);
      ReadingLegible(e.ix.cols);
      ReadingLegible(s.ix.cols);
      ReadingReflects(names, e.ix.cols, s.ix.cols);
      ReadingReflects(names, s.ix.cols, e.ix.cols);
    }
  }

  /** The two indexes, on one column each, of which the second loses. */
  function TwoIndexes(c: string, d: string, unique: bool): seq<Entry> {
    [Entry(1, Ix("a", [d], unique)), Entry(1, Ix("b", [c], unique))]
  }

  lemma {:induction false} ReadSnoc(w: seq<Entry>, e: Entry)
    requires Reading(e.ix.cols) != []
    ensures ReadEntries(w + [e]) == ReadEntries(w) + [ReadEntry(e)]
  {
    hide Reading;
    assert (w + [e])[..|w|] == w;
  }

  lemma {:induction false} TableSnoc(w: seq<Entry>, e: Entry)
    ensures TableOf(w + [e], e.oid) == TableOf(w, e.oid) + [e.ix]
  {
    assert (w + [e])[..|w|] == w;
  }

  lemma {:induction false} ReadTwo(c: string, d: string, unique: bool)
    requires Legible(c) && Legible(d)
    ensures TableOf(ReadEntries(TwoIndexes(c, d, unique)), 1) == [Ix("a", Reads(d), unique), Ix("b", Reads(c), unique)]
  {
    hide Legible, Reads, Reading, ReadEntries, TableOf;
    ReadOne(c);
    ReadOne(d);
    var a, b := Entry(1, Ix("a", [d], unique)), Entry(1, Ix("b", [c], unique));
    ReadSnoc([], a);
    ReadSnoc([a], b);
    NothingListed();
    assert [] + [a] == [a] && [a] + [b] == TwoIndexes(c, d, unique);
    assert [] + [ReadEntry(a)] == [ReadEntry(a)];
    TableSnoc([], ReadEntry(a));
    TableSnoc([ReadEntry(a)], ReadEntry(b));
  }

  lemma {:induction false} NothingListed()
    ensures ReadEntries([]) == [] && TableOf([], 1) == []
  {
  }

  lemma {:induction false} ReadOne(c: string)
    requires Legible(c)
    ensures Reading([c]) == Reads(c) != []
  {
    hide Legible;
    ReadingLegible([c]);
    ReadsSomething(c);
    assert [c][1..] == [] && Reading([]) == [] && Reads(c) + [] == Reads(c);
  }

  /** If one name reads like another one or its beginning, the index on it is dropped for one on the other. */
  lemma {:induction false} DroppedForAnother(c: string, d: string, unique: bool)
    requires c != d && Legible(c) && Legible(d) && Reads(c) <= Reads(d) && (unique ==> Reads(c) == Reads(d))
    ensures var w := TwoIndexes(c, d, unique);
      && EntriesDistinct(map[], w) && !Served(map[], w, w[1]) && !Enforced(map[], w, w[1])
  {
    var w := TwoIndexes(c, d, unique);
    var x, y := Ix("a", Reads(d), unique), Ix("b", Reads(c), unique);
    var table := Label(map[], 1);
    hide Reads, Legible, Report, TableItems, TableOf, Label, ReadEntries;
    ReadTwo(c, d, unique);
    var item := if Reads(c) == Reads(d) then Duplicate(table, "b", "a", Reads(d))
      else PrefixRedundant(table, "b", "a", Reads(c));
    assert PairItems(table, x, y) == [item];
    assert FromPair(table, [x, y], 0, 1, item);
    TableItemsMeaning(table, [x, y], item);
    ReportMeaning(map[], ReadEntries(w), item);
    assert !Unnamed(map[], w, 1, "b");
    assert forall s :: Remains(map[], w, s) ==> s == w[0];
    assert w[0].ix.cols[0] == d && w[1].ix.cols[0] == c;
  }

  /**
   Following all the advice is safe, for every list of distinctly named indexes over a set of columns, exactly when
   the reader keeps the names of these columns apart.
   */
  lemma {:induction false} AdviceSafeIff(names: iset<string>)
    ensures (forall labels, w | EntriesDistinct(labels, w) && AllOver(w, names) :: SafeAdvice(labels, w))
      <==> KeptApart(names)
  {
    hide EntriesDistinct, Served, Enforced;
    if KeptApart(names) {
      forall labels, w | EntriesDistinct(labels, w) && AllOver(w, names) ensures SafeAdvice(labels, w) {
        SafeWhenApart(labels, w, names);
      }
    } else {
      var c, d :| c in names && d in names && Legible(c) && Legible(d) && Reads(c) <= Reads(d) && c != d;
      hide Legible, Reads;
      DroppedForAnother(c, d, false);
      var w := TwoIndexes(c, d, false);
      assert AllOver(w, names);
      assert w[1] in w && !SafeAdvice(map[], w);
    }
  }

  lemma {:induction false} SafeWhenApart(labels: map<int, string>, w: seq<Entry>, names: iset<string>)
    requires EntriesDistinct(labels, w) && AllOver(w, names) && KeptApart(names)
    ensures SafeAdvice(labels, w)
  {
    hide EntriesDistinct, Served, Enforced, KeptApart, AllOver;
    forall e | e in w ensures Served(labels, w, e) && (e.ix.unique ==> Enforced(labels, w, e)) {
      ServedWhenApart(labels, w, names, e);
      if e.ix.unique {
        EnforcedWhenApart(labels, w, names, e);
      }
    }
  }

  // ---------------------------------------------------------------- which names are kept apart

  lemma {:induction false} CommaFree(c: string)
    requires ',' !in c
    ensures Pieces(c) == [Q(c)] && Reads(c) == (if Legible(c) then [ColumnIn(Q(c))] else [])
  {
    QuotedHas(c, ',');
    SplitWhole(Q(c), ',');
    hide Q, Word, ColumnIn;
  }

  /** Names without commas are kept apart exactly when no two of them read alike. */
  lemma {:induction false} CommaFreeApart(names: iset<string>)
    requires forall c :: c in names ==> ',' !in c
    ensures KeptApart(names) <==>
      forall c, d :: c in names && d in names && Legible(c) && Legible(d) && Reads(c) == Reads(d) ==> c == d
  {
    hide Legible, Reads;
    forall c | c in names ensures |Reads(c)| <= 1 && (Legible(c) ==> |Reads(c)| == 1) {
      CommaFree(c);
    }
  }

  lemma {:induction false} SimpleReads(c: string)
    requires IsSimple(c)
    ensures Legible(c) && Reads(c) == [LowerAll(c)]
  {
    BareAlike(c);
    SimpleWord(c);
    StripEnds(c, IsSpace);
    StripEnds(c, IsQuote);
    assert ',' !in c && '(' !in c;
    QuotedHas(c, '(');
    CommaFree(c);
    hide Q, Strip, FirstWord, Reads;
  }

  /** Simple names in lower case are kept apart. */
  lemma {:induction false} LowerNamesApart(names: iset<string>)
    requires forall c :: c in names ==> IsSimple(c) && LowerAll(c) == c
    ensures KeptApart(names)
  {
    hide IsSimple, LowerAll, Legible, Reads;
    forall c | c in names ensures Reads(c) == [c] && Reads(c)[0] == c {
      SimpleReads(c);
    }
    forall c, d | c in names && d in names && Reads(c) <= Reads(d) ensures c == d {
      assert Reads(c)[0] == Reads(d)[0];
    }
  }

  lemma {:induction false} TwoWords(word: string, rest: string)
    requires IsSimple(word) && IsSimple(rest)
    ensures var c := word + " " + rest;
      ',' !in c && '(' !in c && '"' !in c && !IsSpace(c[0]) && !IsSpace(c[|c| - 1])
  {
    var c := word + " " + rest;
    assert forall k :: 0 <= k < |c| ==>
      c[k] == if k < |word| then word[k] else if k == |word| then ' ' else rest[k - |word| - 1];
  }

  /** A name of several words is read as its first word. */
  lemma {:induction false} FirstWordReads(word: string, rest: string)
    requires IsSimple(word) && IsSimple(rest)
    ensures Legible(word + " " + rest) && Reads(word + " " + rest) == [LowerAll(word)]
  {
    var c := word + " " + rest;
    TwoWords(word, rest);
    WordOfQuoted(c);
    FirstWordOf(word, rest);
    QuotedHas(c, '(');
    CommaFree(c);
    assert word != "" && word[0] != '"' && word[|word| - 1] != '"';
    StripEnds(word, IsQuote);
    hide Q, Strip, FirstWord, Reads, IsSimple, Word;
  }

  lemma {:induction false} WordOfQuoted(c: string)
    requires c != "" && '"' !in c
    ensures Word(Q(c)) == FirstWord(c)
  {
    EscapePlain(c);
    StripEnds(Q(c), IsSpace);
    StripQuotes(c);
    hide Strip, FirstWord, Escape;
  }

  lemma {:induction false} FirstWordOf(word: string, rest: string)
    requires IsSimple(word)
    ensures FirstWord(word + " " + rest) == word
  {
    UpToBlank(word, " " + rest);
    assert word + " " + rest == word + (" " + rest);
    assert (word + " " + rest)[0] == word[0];
  }

  lemma {:induction false} UpToBlank(word: string, r: string)
    requires (forall k :: 0 <= k < |word| ==> !IsSpace(word[k])) && r != "" && IsSpace(r[0])
    ensures UpTo(word + r, IsSpace) == word
  {
    if word == "" {
      assert word + r == r;
    } else {
      assert (word + r)[1..] == word[1..] + r;
      UpToBlank(word[1..], r);
    }
  }

  /** Two unique indexes, say on `first name` and `first address`: the second is dropped, and nothing replaces it. */
  lemma {:induction false} FirstWordsClash(word: string, x: string, y: string)
    requires IsSimple(word) && IsSimple(x) && IsSimple(y) && x != y
    ensures var w := TwoIndexes(word + " " + x, word + " " + y, true);
      EntriesDistinct(map[], w) && !Served(map[], w, w[1]) && !Enforced(map[], w, w[1])
  {
    hide Served, Enforced, EntriesDistinct, Legible, Reads, IsSimple, LowerAll;
    FirstWordReads(word, x);
    FirstWordReads(word, y);
    var c, d := word + " " + x, word + " " + y;
    assert c[|word| + 1..] == x && d[|word| + 1..] == y;
    DroppedForAnother(c, d, true);
  }

  /** And so are names that differ in their letters' case only. */
  lemma {:induction false} CasesClash()
    ensures var w := TwoIndexes("Id", "id", true);
      EntriesDistinct(map[], w) && !Served(map[], w, w[1]) && !Enforced(map[], w, w[1])
  {
    SimpleReads("Id");
    SimpleReads("id");
    assert LowerAll("Id") == LowerAll("id");
    hide Served, Enforced, EntriesDistinct, Legible, Reads, LowerAll;
    DroppedForAnother("Id", "id", true);
  }
}
