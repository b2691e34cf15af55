/** Reading what was written gives the diagram back. */
module DbmlRoundTrip {
  import Orders
  import opened Dicts
  import opened Text
  import opened DbmlLines
  import opened Dbml
  import opened DbmlSettings
  import opened DbmlNotes
  import opened LostReferences
  import IndexDefinitions

  // ---------------------------------------------------------------- which diagrams

  /** A name that survives: not empty, no quote, no line break, no comment sign. */
  predicate Readable(name: string) {
    && name != "" && '"' !in name
    && (forall k :: 0 <= k < |name| ==> !IsBreak(name[k]))
    && forall k :: 0 <= k < |name| - 1 ==> name[k] != '/' || name[k + 1] != '/'
  }

  /** A title of two plain words. */
  datatype Title = Title(schema: string, name: string) {
    predicate Ok() {
      IsPlain(schema) && IsPlain(name)
    }

    function Text(): string {
      schema + "." + name
    }
  }

  /** A column whose line is read as what it is: its type is one, and its comment reads like no other setting. */
  predicate ColumnOk(c: Column) {
    && Readable(c.name) && !IsKeyword(c.name)
    && (c.dataType == "" || (IsType(c.dataType) && Calm(c.dataType)))
    && (c.comment == "" || Calm(Note(c.comment))) && CommentKeeps(c)
  }

  /** A note of one line that keeps the importer reading. */
  predicate CommentOk(comment: string) {
    comment == "" || (Unbroken(NoteLine(comment)) && NoteKeeps(comment))
  }

  predicate NodeOk(node: Node, title: Title) {
    && title.Ok() && node.title == title.Text() && CommentOk(node.comment)
    && forall k :: 0 <= k < |node.columns| ==> ColumnOk(node.columns[k])
  }

  predicate NodesOk(nodes: seq<Node>, titles: seq<Title>) {
    && |titles| == |nodes|
    && (forall i :: 0 <= i < |nodes| ==> NodeOk(nodes[i], titles[i]))
    && forall i, j :: 0 <= i < j < |nodes| ==> titles[i] != titles[j]
  }

  /** A written edge starts at one column, or at several with plain names. */
  predicate EdgeOk(nodes: seq<Node>, e: Edge) {
    EdgeLines(nodes, e) != [] ==>
      if Single(e) then Readable(EdgeColumns(e).0[0]) && Readable(EdgeColumns(e).1[0])
      else AllPlain(EdgeColumns(e).0) && AllPlain(EdgeColumns(e).1)
  }

  predicate AllPlain(names: seq<string>) {
    forall k :: 0 <= k < |names| ==> IsPlain(names[k])
  }

  /** The edge is written with one column at each end. */
  predicate Single(e: Edge) {
    |EdgeColumns(e).0| == 1 && EdgeColumns(e).1 != []
  }

  predicate Short(lines: seq<string>) {
    forall k :: 0 <= k < |lines| ==> |lines[k]| <= MAX_LINE
  }

  /** The diagrams that come back: the columns of their lines are what the importer expects of them. */
  predicate DiagramOk(nodes: seq<Node>, titles: seq<Title>, edges: seq<Edge>) {
    && NodesOk(nodes, titles)
    && (forall k :: 0 <= k < |edges| ==> EdgeOk(nodes, edges[k]))
    && Short(AllTableLines(nodes) + AllEdgeLines(nodes, edges))
  }

  // ---------------------------------------------------------------- what must come back

  function Relations(titles: seq<Title>): seq<Relation> {
    if titles == [] then []
    else
      var last := titles[|titles| - 1];
      Relations(titles[..|titles| - 1]) + [Relation(|titles|, last.schema, last.name)]
  }

  /** The row for a column of a table. */
  function RowOf(oid: nat, position: nat, c: Column): ColumnRow {
    ColumnRow(oid, c.name, position, TypeOf(c), c.isPk || c.isNotNull, false)
  }

  function Rows(oid: nat, columns: seq<Column>): seq<ColumnRow> {
    if columns == [] then []
    else Rows(oid, columns[..|columns| - 1]) + [RowOf(oid, |columns|, columns[|columns| - 1])]
  }

  function AllRows(nodes: seq<Node>): seq<ColumnRow> {
    if nodes == [] then [] else AllRows(nodes[..|nodes| - 1]) + Rows(|nodes|, nodes[|nodes| - 1].columns)
  }

  /** The primary-key columns, numbered on from those before. */
  function Keys(oid: nat, columns: seq<Column>, before: seq<PkRow>): seq<PkRow> {
    if columns == [] then before
    else
      var keys := Keys(oid, columns[..|columns| - 1], before);
      var c := columns[|columns| - 1];
      if c.isPk then keys + [PkRow(oid, c.name, |keys| + 1)] else keys
  }

  function AllKeys(nodes: seq<Node>): seq<PkRow> {
    if nodes == [] then []
    else Keys(|nodes|, nodes[|nodes| - 1].columns, AllKeys(nodes[..|nodes| - 1]))
  }

  /** The position of the node that an edge is attached to, counted from 1; 0 if there is none. */
  function Position(nodes: seq<Node>, id: string): nat {
    if nodes == [] then 0
    else if nodes[|nodes| - 1].id == id then |nodes|
    else Position(nodes[..|nodes| - 1], id)
  }

  lemma {:induction false} PositionFinds(nodes: seq<Node>, id: string)
    ensures Position(nodes, id) <= |nodes|
    ensures FindNode(nodes, id) ==
      if Position(nodes, id) == 0 then None else Some(nodes[Position(nodes, id) - 1])
  {
    if nodes != [] {
      PositionFinds(nodes[..|nodes| - 1], id);
    }
  }

  /** The foreign keys: one for each written edge that starts at one column, in order; composite ones are lost. */
  function Fks(nodes: seq<Node>, titles: seq<Title>, edges: seq<Edge>): seq<FkRow>
    requires |titles| == |nodes|
  {
    if edges == [] then []
    else
      var before, e := Fks(nodes, titles, edges[..|edges| - 1]), edges[|edges| - 1];
      if EdgeLines(nodes, e) == [] || !Single(e) then before
      else
        var child, parent := Position(nodes, e.source), Position(nodes, e.target);
        var c, p := EdgeColumns(e).0[0], EdgeColumns(e).1[0];
        var name := if 0 < child <= |titles| then "fk_" + titles[child - 1].name + "_" + c else "";
        before + [FkRow(100000 + |before| + 1, name, child, parent, c, p)]
  }

  function Imported(nodes: seq<Node>, titles: seq<Title>, edges: seq<Edge>): Snapshot
    requires |titles| == |nodes|
  {
    Snapshot(Orders.SortedStrings(set t | t in titles :: t.schema), Relations(titles), AllRows(nodes), AllKeys(nodes),
             Fks(nodes, titles, edges))
  }

  // ---------------------------------------------------------------- runs over lines

  lemma {:induction false} RunConcat(s: State, a: seq<string>, b: seq<string>)
    requires Valid(s)
    ensures Run(s, a + b) == Run(Run(s, a), b)
  {
    hide Step;
    if b == [] {
      assert a + b == a;
    } else {
      RunConcat(s, a, b[..|b| - 1]);
      assert (a + b)[..|a + b| - 1] == a + b[..|b| - 1];
    }
  }

  lemma {:induction false} RunOne(s: State, a: seq<string>, line: string)
    requires Valid(s)
    ensures Run(s, a + [line]) == Step(Run(s, a), line)
  {
    assert (a + [line])[..|a|] == a;
    hide Step;
  }

  lemma {:induction false} BlankStep(s: State)
    requires Valid(s)
    ensures Step(s, "") == s
  {
  }

  // ---------------------------------------------------------------- the text falls into its lines

  predicate Unbroken(line: string) {
    forall k :: 0 <= k < |line| ==> !IsBreak(line[k])
  }

  predicate AllUnbroken(lines: seq<string>) {
    forall k :: 0 <= k < |lines| ==> Unbroken(lines[k])
  }

  lemma {:induction false} LinesStep(line: string, rest: string)
    requires Unbroken(line)
    ensures Lines(line + ("\n" + rest)) == [line] + Lines(rest)
  {
    var all := line + ("\n" + rest);
    if line == "" {
      assert all == "\n" + rest && all[1..] == rest && all[0] == '\n';
    } else {
      assert all[1..] == line[1..] + ("\n" + rest) && all[0] == line[0];
      LinesStep(line[1..], rest);
      assert [line[0]] + line[1..] == line;
    }
  }

  lemma {:induction false} LinesOfCat(lines: seq<string>, rest: string)
    requires AllUnbroken(lines)
    ensures Lines(Cat(lines) + rest) == lines + Lines(rest)
    decreases |lines|
  {
    if lines == [] {
      assert Cat(lines) + rest == rest;
    } else {
      var init, last := lines[..|lines| - 1], lines[|lines| - 1];
      assert Unbroken(last);
      LinesOfCat(init, last + ("\n" + rest));
      LinesStep(last, rest);
      assert Cat(lines) + rest == Cat(init) + (last + ("\n" + rest));
      hide Lines, Cat;
      assert lines == init + [last];
    }
  }

  /** A line is empty or ends in something visible. */
  predicate Visible(line: string) {
    line == "" || !IsBlank(line[|line| - 1])
  }

  predicate AllVisible(lines: seq<string>) {
    forall k :: 0 <= k < |lines| ==> Visible(lines[k])
  }

  lemma {:induction false} StripLast(s: string, c: char)
    requires IsBlank(c) && s != "" && !IsBlank(s[0])
    ensures Strip(s + [c], IsBlank) == Strip(s, IsBlank)
  {
    assert (s + [c])[0] == s[0] && (s + [c])[..|s|] == s;
  }

  lemma {:induction false} CatStarts(lines: seq<string>)
    requires lines != [] && lines[0] != ""
    ensures Cat(lines) != "" && Cat(lines)[0] == lines[0][0]
    decreases |lines|
  {
    if |lines| > 1 {
      CatStarts(lines[..|lines| - 1]);
    }
  }

  lemma {:induction false} CatLast(lines: seq<string>)
    requires lines != []
    ensures Cat(lines) == Cat(lines[..|lines| - 1]) + lines[|lines| - 1] + "\n"
  {
  }

  /** Lines that can be trimmed at both ends of their text. */
  predicate Trimmable(lines: seq<string>) {
    AllUnbroken(lines) && AllVisible(lines) && lines != [] && lines[0] != "" && !IsBlank(lines[0][0])
  }

  lemma {:induction false} TrimmableInit(lines: seq<string>)
    requires Trimmable(lines) && lines[|lines| - 1] == ""
    ensures Trimmable(lines[..|lines| - 1])
  {
    var init := lines[..|lines| - 1];
    assert forall k :: 0 <= k < |init| ==> init[k] == lines[k];
  }

  /** Without its last line break the text starts and ends with something visible, unless the last line is empty. */
  lemma {:induction false} TrimmedText(lines: seq<string>)
    requires Trimmable(lines)
    ensures var init, last := lines[..|lines| - 1], lines[|lines| - 1];
      if last == "" then Strip(Cat(lines), IsBlank) == Strip(Cat(init), IsBlank)
      else Strip(Cat(lines), IsBlank) + "\n" == Cat(lines)
  {
    var init, last := lines[..|lines| - 1], lines[|lines| - 1];
    var body := Cat(init) + last;
    CatStarts(lines);
    CatLast(lines);
    assert Visible(last);
    hide Cat, AllVisible, Strip;
    assert body[0] == Cat(lines)[0];
    StripLast(body, '\n');
    assert Cat(lines) == body + ['\n'];
    if last == "" {
      assert body == Cat(init);
    } else {
      assert body[|body| - 1] == last[|last| - 1];
      StripEnds(body, IsBlank);
    }
  }

  /** Trimming the written text takes away nothing that is read. */
  lemma {:induction false} TrimmedRun(s: State, lines: seq<string>)
    requires Valid(s) && Trimmable(lines)
    ensures Run(s, Lines(Strip(Cat(lines), IsBlank) + "\n")) == Run(s, lines)
    decreases |lines|
  {
    TrimmedText(lines);
    if lines[|lines| - 1] == "" {
      TrimmableInit(lines);
      TrimmedRun(s, lines[..|lines| - 1]);
      EmptyLast(s, lines[..|lines| - 1]);
      assert lines == lines[..|lines| - 1] + [""];
    } else {
      EmptyRest(s, lines);
    }
    hide Run, Trimmable, Lines, Cat, Strip;
  }

  lemma {:induction false} EmptyLast(s: State, init: seq<string>)
    requires Valid(s)
    ensures Run(s, init + [""]) == Run(s, init)
  {
    hide Run, Step, Valid;
    RunOne(s, init, "");
    BlankStep(Run(s, init));
  }

  lemma {:induction false} EmptyRest(s: State, lines: seq<string>)
    requires Valid(s) && AllUnbroken(lines)
    ensures Run(s, Lines(Cat(lines))) == Run(s, lines)
  {
    hide Run, Cat, Step, Valid;
    LinesOfCat(lines, "");
    assert Cat(lines) + "" == Cat(lines);
    assert Lines("") == [""];
    EmptyLast(s, lines);
  }

  // ---------------------------------------------------------------- names and titles as they are written

  lemma {:induction false} PlainIsName(s: string)
    requires IsPlain(s)
    ensures IsName(s) && '.' !in s && SafeId(s) == s && Bare(s) == s
  {
  }

  lemma {:induction false} QuotedIsName(name: string, q: string)
    requires Readable(name) && q == ['"'] + name + ['"']
    ensures Calm(q) && IsName(q) && Bare(q) == name && !IsPlain(q)
  {
    assert q[1..|q| - 1] == name;
    assert forall k :: 0 < k < |q| - 1 ==> q[k] == name[k - 1];
    assert q[0] == '"' && q[|q| - 1] == '"';
  }

  lemma {:induction false} NameWritten(name: string)
    requires Readable(name)
    ensures IsName(SafeId(name)) && Bare(SafeId(name)) == name
    ensures IsKeyword(SafeId(name)) <==> IsKeyword(name)
  {
    if IsPlain(name) {
      PlainIsName(name);
    } else {
      IndexDefinitions.EscapePlain(name);
      var q := ['"'] + name + ['"'];
      assert IndexDefinitions.Q(name) == q;
      QuotedIsName(name, q);
    }
    hide IsName, Readable, Bare, IsPlain;
  }

  lemma {:induction false} TitleWritten(title: Title)
    requires title.Ok()
    ensures HeaderName(title.Text()) == title.Text() && RefName(title.Text()) == title.Text()
  {
    PlainIsName(title.schema);
    PlainIsName(title.name);
    SplitDotted(title.schema, title.name);
    var parts := [title.schema, title.name];
    assert parts[1..] == [title.name];
    assert Join([title.name], ".") == title.name;
  }

  lemma {:induction false} CalmConcat(a: string, b: string)
    requires Calm(a) && Calm(b)
    ensures Calm(a + b)
  {
  }

  lemma {:induction false} NoCommentCut(s: string)
    requires forall k :: 0 <= k < |s| - 1 ==> s[k] != '/' || s[k + 1] != '/'
    ensures CutComment(s) == s
  {
    if s != "" {
      NoCommentCut(s[1..]);
      assert [s[0]] + s[1..] == s;
    }
  }

  lemma {:induction false} Indented(text: string)
    requires text != "" && !IsSpace(text[0]) && !IsSpace(text[|text| - 1])
    ensures Strip(text, IsSpace) == text && Strip("  " + text, IsSpace) == text
  {
    StripEnds(text, IsSpace);
    assert ("  " + text)[1..] == " " + text && (" " + text)[1..] == text;
    assert StripLeft("  " + text, IsSpace) == text;
  }

  lemma {:induction false} CleanText(text: string)
    requires Calm(text) && text != "" && !IsSpace(text[0]) && !IsSpace(text[|text| - 1])
    ensures CleanLine(text) == text && CleanLine("  " + text) == text
  {
    assert Calm("  ");
    hide Calm, Strip;
    NoCommentCut(text);
    CalmConcat("  ", text);
    NoCommentCut("  " + text);
    Indented(text);
  }

  // ---------------------------------------------------------------- the steps on the written lines

  lemma {:induction false} WordIsCalm(w: string)
    requires forall k :: 0 <= k < |w| ==> IsWordChar(w[k])
    ensures Calm(w)
  {
  }

  lemma {:induction false} CalmLine(line: string)
    requires Calm(line) && line != "" && !IsSpace(line[|line| - 1])
    ensures Unbroken(line) && Visible(line) && Unbroken("  " + line) && Visible("  " + line)
  {
  }

  lemma {:induction false} HeaderClean(title: Title)
    requires title.Ok()
    ensures CleanLine(HeaderLine(title.schema, title.name)) == HeaderLine(title.schema, title.name)
    ensures Unbroken(HeaderLine(title.schema, title.name)) && Visible(HeaderLine(title.schema, title.name))
  {
    WordIsCalm(title.schema);
    WordIsCalm(title.name);
    assert Calm("Table ") && Calm(".") && Calm(" {");
    hide Calm, IsPlain;
    CalmConcat(title.schema, ".");
    CalmConcat(title.schema + ".", title.name);
    CalmConcat("Table ", title.Text());
    CalmConcat("Table " + title.Text(), " {");
    var line := HeaderLine(title.schema, title.name);
    assert line == "Table " + title.Text() + " {";
    assert line[0] == 'T' && line[|line| - 1] == '{';
    CleanText(line);
    CalmLine(line);
  }

  lemma {:induction false} HeaderStep(s: State, title: Title)
    requires Valid(s) && s.ignored == 0 && title.Ok() && |HeaderLine(title.schema, title.name)| <= MAX_LINE
    ensures Step(s, HeaderLine(title.schema, title.name)) == EnterTable(s, (title.schema, title.name))
  {
    HeaderClean(title);
    HeaderReads(title.schema, title.name);
    hide CleanLine, StartsIgnored, TableHeader, EnterTable, StartsIndexes, ColumnOf, AddColumn, AddReference;
  }

  lemma {:induction false} StripWord(s: string)
    requires s != "" && IsWordChar(s[0])
    ensures StripLeft(s, IsSpace) == s && StripLeft(" " + s, IsSpace) == s && s[0] != '{'
  {
    SkipBlank(s);
  }

  lemma {:induction false} NotIndexes(name: string, r: string)
    requires IsName(name) && r != "" && IsWordChar(r[0])
    ensures !StartsIndexes(name + (" " + r))
  {
    hide IsName, IsPlain, StartsWith, StripLeft;
    var line := name + (" " + r);
    NameStarts(name);
    if StartsWith(line, "indexes") {
      assert line[0] == name[0] && line[|name|] == ' ';
      StartsInWord(line, "indexes", 0);
      if |name| == 7 {
        assert line[7..] == " " + r;
        StripWord(r);
      } else if |name| > 7 {
        assert line[7..][0] == name[7];
        StripWord(line[7..]);
      } else {
        StartsInWord(line, "indexes", |name|);
      }
    }
  }

  function Tail(settings: string): string {
    if settings == "" then "" else " [" + settings + "]"
  }

  lemma {:induction false} TailCalm(settings: string)
    requires Calm(settings)
    ensures Calm(Tail(settings))
    ensures Tail(settings) == "" || Tail(settings)[|Tail(settings)| - 1] == ']'
  {
    assert Calm(" [") && Calm("]");
    hide Calm;
    CalmConcat(" [", settings);
    CalmConcat(" [" + settings, "]");
  }

  lemma {:induction false} ColumnClean(name: string, s: string)
    requires IsName(name) && Calm(s) && s != "" && !IsSpace(s[|s| - 1])
    ensures var line := name + (" " + s);
      line[0] == name[0] && CleanLine("  " + line) == line && Unbroken("  " + line) && Visible("  " + line)
  {
    var line := name + (" " + s);
    assert Calm(" ");
    assert !IsSpace(name[0]);
    assert Calm(name);
    hide Calm, IsName;
    CalmConcat(" ", s);
    CalmConcat(name, " " + s);
    assert line[|line| - 1] == s[|s| - 1] && line[0] == name[0];
    CleanText(line);
    CalmLine(line);
  }

  /** A type starts with a letter or digit and ends in something visible. */
  lemma {:induction false} TypeEnds(t: string)
    requires IsType(t)
    ensures t != "" && IsWordChar(t[0]) && !IsSpace(t[|t| - 1])
  {
    var word, s, rest := TypePieces(t);
    var a := TypeArguments(s);
    assert a != "" ==> a[|a| - 1] == ')' by {
      if a != "" {
        var inside := ArgumentsForm(s);
      }
    }
    hide IsType, TypeArguments;
    assert t[0] == word[0];
    assert t[|t| - 1] == if rest != "" then ']' else if a != "" then a[|a| - 1] else word[|word| - 1];
  }

  lemma {:induction false} TypeCalm(dataType: string, settings: string)
    requires IsType(dataType) && Calm(dataType) && Calm(settings)
    ensures var s := dataType + Tail(settings);
      Calm(s) && s != "" && IsWordChar(s[0]) && !IsSpace(s[|s| - 1])
  {
    TypeEnds(dataType);
    TailCalm(settings);
    CalmConcat(dataType, Tail(settings));
    var s := dataType + Tail(settings);
    hide Calm, Tail, IsType;
    assert s[0] == dataType[0];
    assert s[|s| - 1] == if Tail(settings) == "" then dataType[|dataType| - 1] else ']';
  }

  lemma {:induction false} VarcharIsType()
    ensures IsType("varchar") && Calm("varchar")
  {
    VarcharIsWord();
    hide IsWordText, Calm, IsWordChar, Span;
    assert TypeArguments("") == "";
    assert "varchar" + (TypeArguments("") + "") == "varchar";
    TypeSplits("varchar", "", "");
  }

  lemma {:induction false} VarcharIsWord()
    ensures IsWordText("varchar") && Calm("varchar")
  {
    assert "varchar" == ['v', 'a', 'r', 'c', 'h', 'a', 'r'];
  }

  lemma {:induction false} TypeOk(c: Column)
    requires ColumnOk(c)
    ensures IsType(TypeOf(c)) && Calm(TypeOf(c))
  {
    VarcharIsType();
    hide IsType, Calm, CommentKeeps;
  }

  lemma {:induction false} SettingsCalm(c: Column)
    requires ColumnOk(c)
    ensures Calm(SettingsOf(c))
  {
    SettingsText(c);
    KeysCalm(c);
    hide Calm, Readable, CommentKeeps, IsType, Note, SettingsOf;
    if c.comment != "" {
      CalmConcat(Lead(c), Note(c.comment));
    }
  }

  lemma {:induction false} KeysCalm(c: Column)
    ensures Calm(KeySetting(c)) && Calm(Lead(c))
  {
    assert Calm("pk") && Calm("not null") && Calm("") && Calm("pk, ") && Calm("not null, ");
    assert "pk" + ", " == "pk, " && "not null" + ", " == "not null, ";
    hide Calm;
  }

  /** How the importer sees the line of a column. */
  lemma {:induction false} ColumnLineSeen(name: string, s: string)
    requires IsName(name) && !IsKeyword(name) && Calm(s) && s != "" && IsWordChar(s[0]) && !IsSpace(s[|s| - 1])
    ensures var line := name + (" " + s);
      && CleanLine("  " + line) == line && line != "" && line[0] != '}'
      && !StartsIgnored(line) && TableHeader(line).None? && !StartsWithWord(line, "ref") && !StartsIndexes(line)
  {
    ColumnClean(name, s);
    assert name[0] != '}';
    hide CleanLine, StartsIgnored, TableHeader, StartsIndexes, IsName, Calm, StartsWithWord;
    NotAKeywordLine(name, " " + s);
    NotIndexes(name, s);
  }

  function WithRow(s: State, oid: nat, position: nat, c: Column): State {
    s.(
      columns := s.columns + [RowOf(oid, position, c)],
      pks := if c.isPk then s.pks + [PkRow(oid, c.name, |s.pks| + 1)] else s.pks)
  }

  /** A read column becomes what it was exactly when its comment keeps it. */
  lemma {:induction false} AddWrittenIff(s: State, key: TableKey, c: Column)
    requires key in s.oids
    ensures CommentKeeps(c) <==>
      AddColumn(s, key, ColumnLine(c.name, TypeOf(c), SettingsOf(c))) ==
      WithRow(s, s.oids[key], CountOid(s.columns, s.oids[key]) + 1, c)
  {
    SettingsSayIff(c);
    hide CommentKeeps, SettingsOf, CountOid, TypeOf;
    AddsFeatures(s, key, c, SettingsOf(c));
  }

  lemma {:induction false} AddsFeatures(s: State, key: TableKey, c: Column, settings: string)
    requires key in s.oids
    ensures Searched(settings) == Features(c.isPk, c.isPk || c.isNotNull, false, None) <==>
      AddColumn(s, key, ColumnLine(c.name, TypeOf(c), settings)) ==
      WithRow(s, s.oids[key], CountOid(s.columns, s.oids[key]) + 1, c)
  {
    hide FindInline, SaysPrimaryKey, LowerAll, Contains, CountOid, TypeOf, SplitColumnRef;
    var t := AddColumn(s, key, ColumnLine(c.name, TypeOf(c), settings));
    var want := WithRow(s, s.oids[key], CountOid(s.columns, s.oids[key]) + 1, c);
    var n := |s.columns|;
    assert t.columns[n] == want.columns[n] <==> t.columns == want.columns;
    assert |t.pks| == |want.pks| <==> SaysPrimaryKey(LowerAll(settings)) == c.isPk;
    assert |t.specs| == |want.specs| <==> FindInline(settings) == None;
  }

  /** The pieces of a printed column line. */
  lemma {:induction false} ColumnPieces(c: Column)
    requires ColumnOk(c)
    ensures var name, settings := SafeId(c.name), SettingsOf(c);
      && IsName(name) && Bare(name) == c.name && !IsKeyword(name)
      && IsType(TypeOf(c)) && Calm(TypeOf(c)) && Calm(settings)
      && Dbml.ColumnText(c) == DbmlLines.ColumnText(name, TypeOf(c), settings)
      && Dbml.ColumnText(c) == name + (" " + (TypeOf(c) + Tail(settings)))
  {
    TypeOk(c);
    SettingsCalm(c);
    hide SettingList, Join, IsName, SafeId, IsKeyword, Bare, Readable, IsType, Calm, CommentKeeps;
    NameWritten(c.name);
  }

  lemma {:induction false} ColumnSeen(c: Column)
    requires ColumnOk(c)
    ensures var line := Dbml.ColumnText(c);
      && CleanLine("  " + line) == line && line != "" && line[0] != '}'
      && !StartsIgnored(line) && TableHeader(line).None? && !StartsWithWord(line, "ref") && !StartsIndexes(line)
      && ColumnOf(line) == Some(ColumnLine(c.name, TypeOf(c), SettingsOf(c)))
  {
    hide CleanLine, StartsIgnored, TableHeader, StartsIndexes, ColumnOf, IsName, SafeId, Dbml.ColumnText, TypeOf;
    hide SettingsOf, IsKeyword, StartsWithWord, Bare, Tail, Calm, ColumnOk, DbmlLines.ColumnText, IsType;
    ColumnPieces(c);
    TypeCalm(TypeOf(c), SettingsOf(c));
    ColumnLineSeen(SafeId(c.name), TypeOf(c) + Tail(SettingsOf(c)));
    ColumnReads(SafeId(c.name), TypeOf(c), SettingsOf(c));
  }

  lemma {:induction false} Keeps(c: Column)
    requires ColumnOk(c)
    ensures CommentKeeps(c)
  {
  }

  lemma {:induction false} ColumnStep(s: State, key: TableKey, c: Column)
    requires Valid(s) && s.ignored == 0 && !s.inIndexes && s.current == Some(key) && ColumnOk(c)
    requires |Dbml.ColumnText(c)| + 2 <= MAX_LINE
    ensures Step(s, "  " + Dbml.ColumnText(c)) == WithRow(s, s.oids[key], CountOid(s.columns, s.oids[key]) + 1, c)
  {
    hide CleanLine, StartsIgnored, TableHeader, StartsIndexes, ColumnOf, AddColumn, AddReference, ColumnOk;
    hide SettingsOf, CountOid, StartsWithWord, Dbml.ColumnText, TypeOf, WithRow, EnterTable, CommentKeeps;
    ColumnSeen(c);
    Keeps(c);
    AddWrittenIff(s, key, c);
  }

  // ---------------------------------------------------------------- a table

  lemma {:induction false} CountAppended(rows: seq<ColumnRow>, oid: nat, columns: seq<Column>)
    ensures CountOid(rows + Rows(oid, columns), oid) == CountOid(rows, oid) + |columns|
  {
    if columns == [] {
      assert rows + [] == rows;
    } else {
      var init, last := columns[..|columns| - 1], RowOf(oid, |columns|, columns[|columns| - 1]);
      CountAppended(rows, oid, init);
      var all := rows + Rows(oid, columns);
      assert all == (rows + Rows(oid, init)) + [last];
      assert all[..|all| - 1] == rows + Rows(oid, init);
    }
  }

  /** A state within a table, after some of its columns. */
  function Within(s: State, oid: nat, columns: seq<Column>): State {
    s.(columns := s.columns + Rows(oid, columns), pks := Keys(oid, columns, s.pks))
  }

  predicate ReadsTable(s: State, key: TableKey, oid: nat) {
    && s.ignored == 0 && !s.inIndexes && s.current == Some(key)
    && key in s.oids && s.oids[key] == oid && CountOid(s.columns, oid) == 0
  }

  lemma {:induction false} WithinGrows(s: State, oid: nat, columns: seq<Column>)
    requires columns != []
    ensures Within(s, oid, columns) ==
      WithRow(Within(s, oid, columns[..|columns| - 1]), oid, |columns|, columns[|columns| - 1])
  {
    var rows := Rows(oid, columns[..|columns| - 1]);
    var row := RowOf(oid, |columns|, columns[|columns| - 1]);
    assert Rows(oid, columns) == rows + [row];
    assert s.columns + (rows + [row]) == s.columns + rows + [row];
    hide Rows, RowOf;
  }

  lemma {:induction false} WithinReads(s: State, key: TableKey, oid: nat, columns: seq<Column>)
    requires ReadsTable(s, key, oid)
    ensures var t := Within(s, oid, columns);
      && Valid(t) && t.ignored == 0 && !t.inIndexes && t.current == Some(key)
      && key in t.oids && t.oids[key] == oid && CountOid(t.columns, oid) == |columns|
  {
    CountAppended(s.columns, oid, columns);
    hide CountOid, Rows, Keys;
  }

  lemma {:induction false} WithinStep(s: State, key: TableKey, oid: nat, columns: seq<Column>)
    requires ReadsTable(s, key, oid) && columns != []
    requires ColumnOk(columns[|columns| - 1]) && |Dbml.ColumnText(columns[|columns| - 1])| + 2 <= MAX_LINE
    ensures Valid(Within(s, oid, columns[..|columns| - 1]))
    ensures Step(Within(s, oid, columns[..|columns| - 1]), "  " + Dbml.ColumnText(columns[|columns| - 1]))
      == Within(s, oid, columns)
  {
    hide ColumnOk, Dbml.ColumnText, Step, CountOid, WithRow, Within, ReadsTable, Valid;
    var init := columns[..|columns| - 1];
    WithinReads(s, key, oid, init);
    WithinGrows(s, oid, columns);
    ColumnStep(Within(s, oid, init), key, columns[|columns| - 1]);
  }

  lemma {:induction false} ColumnsRun(s: State, key: TableKey, oid: nat, columns: seq<Column>)
    requires Valid(s) && ReadsTable(s, key, oid)
    requires forall k :: 0 <= k < |columns| ==> ColumnOk(columns[k])
    requires Short(ColumnLines(columns))
    ensures Run(s, ColumnLines(columns)) == Within(s, oid, columns)
  {
    if columns == [] {
      assert s.columns + [] == s.columns;
    } else {
      var init, line := columns[..|columns| - 1], "  " + Dbml.ColumnText(columns[|columns| - 1]);
      assert ColumnLines(columns) == ColumnLines(init) + [line];
      assert ColumnLines(columns)[|ColumnLines(init)|] == line;
      assert forall k :: 0 <= k < |ColumnLines(init)| ==> ColumnLines(columns)[k] == ColumnLines(init)[k];
      hide ColumnOk, Dbml.ColumnText, Step, ColumnLines, ReadsTable, Within;
      ColumnsRun(s, key, oid, init);
      RunOne(s, ColumnLines(init), line);
      WithinStep(s, key, oid, columns);
    }
  }

  function Oids(titles: seq<Title>): map<TableKey, nat> {
    if titles == [] then map[]
    else
      var last := titles[|titles| - 1];
      Oids(titles[..|titles| - 1])[(last.schema, last.name) := |titles|]
  }

  lemma {:induction false} OidsKnow(titles: seq<Title>, key: TableKey)
    ensures key in Oids(titles) <==> exists i :: 0 <= i < |titles| && titles[i] == Title(key.0, key.1)
  {
    if titles != [] {
      var init := titles[..|titles| - 1];
      OidsKnow(init, key);
      assert forall i :: 0 <= i < |init| ==> init[i] == titles[i];
    }
  }

  lemma {:induction false} OidsNumber(titles: seq<Title>, i: nat)
    requires i < |titles| && forall a, b :: 0 <= a < b < |titles| ==> titles[a] != titles[b]
    ensures (titles[i].schema, titles[i].name) in Oids(titles)
    ensures Oids(titles)[(titles[i].schema, titles[i].name)] == i + 1
  {
    if i < |titles| - 1 {
      OidsNumber(titles[..|titles| - 1], i);
      assert titles[i] != titles[|titles| - 1];
    }
  }

  lemma {:induction false} RowsOfOthers(nodes: seq<Node>, oid: nat)
    requires oid > |nodes|
    ensures CountOid(AllRows(nodes), oid) == 0
  {
    if nodes != [] {
      RowsOfOthers(nodes[..|nodes| - 1], oid);
      OtherRows(AllRows(nodes[..|nodes| - 1]), |nodes|, nodes[|nodes| - 1].columns, oid);
    }
  }

  lemma {:induction false} OtherRows(rows: seq<ColumnRow>, oid: nat, columns: seq<Column>, other: nat)
    requires oid != other
    ensures CountOid(rows + Rows(oid, columns), other) == CountOid(rows, other)
  {
    if columns == [] {
      assert rows + [] == rows;
    } else {
      var init := columns[..|columns| - 1];
      OtherRows(rows, oid, init, other);
      var all := rows + Rows(oid, columns);
      assert all[..|all| - 1] == rows + Rows(oid, init);
    }
  }

  /** The importer's variables after the lines of some tables, outside of them. */
  function After(nodes: seq<Node>, titles: seq<Title>): State {
    State(Relations(titles), AllRows(nodes), AllKeys(nodes), [], Oids(titles), |titles| + 1, None, 0, false)
  }

  function NoteLines(node: Node): seq<string> {
    if node.comment == "" then [] else [NoteLine(node.comment)]
  }

  lemma {:induction false} TableText(node: Node, title: Title)
    requires NodeOk(node, title)
    ensures TableLines(node) ==
      [HeaderLine(title.schema, title.name)] + ColumnLines(node.columns) + NoteLines(node) + ["}", ""]
  {
    TitleWritten(title);
    hide ColumnOk, ColumnLines, HeaderName, CommentOk, EscapeString;
  }

  lemma {:induction false} Grown(nodes: seq<Node>, titles: seq<Title>, node: Node, title: Title)
    requires |titles| == |nodes|
    ensures Relations(titles + [title]) == Relations(titles) + [Relation(|titles| + 1, title.schema, title.name)]
    ensures Oids(titles + [title]) == Oids(titles)[(title.schema, title.name) := |titles| + 1]
    ensures AllRows(nodes + [node]) == AllRows(nodes) + Rows(|nodes| + 1, node.columns)
    ensures AllKeys(nodes + [node]) == Keys(|nodes| + 1, node.columns, AllKeys(nodes))
  {
    assert (titles + [title])[..|titles|] == titles && (nodes + [node])[..|nodes|] == nodes;
  }

  /** The state after some tables, but for the table that the importer believes to be in. */
  ghost predicate IsAfter(s: State, nodes: seq<Node>, titles: seq<Title>) {
    Valid(s) && s.(current := None) == After(nodes, titles)
  }

  lemma {:induction false} TableEntered(s: State, nodes: seq<Node>, titles: seq<Title>, title: Title)
    requires |titles| == |nodes| && title !in titles && IsAfter(s, nodes, titles)
    ensures var key, oid := (title.schema, title.name), |nodes| + 1;
      var s1 := EnterTable(s, key);
      && ReadsTable(s1, key, oid)
      && s1 == State(
        Relations(titles) + [Relation(oid, title.schema, title.name)], AllRows(nodes), AllKeys(nodes), [],
        Oids(titles)[key := oid], oid + 1, Some(key), 0, false)
  {
    OidsKnow(titles, (title.schema, title.name));
    RowsOfOthers(nodes, |nodes| + 1);
    hide Relations, Oids, AllRows, AllKeys, CountOid;
  }

  lemma {:induction false} TableLeft(s: State, nodes: seq<Node>, titles: seq<Title>, node: Node, title: Title)
    requires |titles| == |nodes| && title !in titles && IsAfter(s, nodes, titles)
    ensures var s1 := EnterTable(s, (title.schema, title.name));
      Within(s1, |nodes| + 1, node.columns).(current := None) == After(nodes + [node], titles + [title])
  {
    TableEntered(s, nodes, titles, title);
    Grown(nodes, titles, node, title);
    hide Relations, Oids, AllRows, AllKeys, ReadsTable, Rows, Keys, EnterTable;
  }

  lemma {:induction false} TableTextParts(node: Node, title: Title)
    requires NodeOk(node, title) && Short(TableLines(node))
    ensures title.Ok() && CommentOk(node.comment)
    ensures forall k :: 0 <= k < |node.columns| ==> ColumnOk(node.columns[k])
    ensures TableLines(node) ==
      [HeaderLine(title.schema, title.name)] + ColumnLines(node.columns) + (NoteLines(node) + ["}"]) + [""]
    ensures |HeaderLine(title.schema, title.name)| <= MAX_LINE && Short(ColumnLines(node.columns))
    ensures node.comment != "" ==> |NoteLine(node.comment)| <= MAX_LINE
  {
    hide ColumnOk, ColumnLines, TableLines, HeaderLine, CommentOk, NoteLine;
    TableText(node, title);
    var lines := ColumnLines(node.columns);
    assert TableLines(node)[0] == HeaderLine(title.schema, title.name);
    assert forall k :: 0 <= k < |lines| ==> TableLines(node)[k + 1] == lines[k];
    assert node.comment != "" ==> TableLines(node)[1 + |lines|] == NoteLine(node.comment);
  }

  /** The last lines of a table, with its note. */
  lemma {:induction false} TableEnds(s: State, node: Node)
    requires Valid(s) && s.ignored == 0 && !s.inIndexes && CommentOk(node.comment)
    requires node.comment != "" ==> |NoteLine(node.comment)| <= MAX_LINE
    ensures var t := Run(s, NoteLines(node) + ["}"]); t.ignored == 0 && t.(current := None) == s.(current := None)
  {
    hide Step, Run, Valid, NoteKeeps, NoteLine;
    if node.comment == "" {
      assert NoteLines(node) + ["}"] == ["}"];
      RunSingle(s, "}");
      CloseStep(s);
    } else {
      assert NoteLines(node) == [NoteLine(node.comment)];
      RunOne(s, [NoteLine(node.comment)], "}");
      RunSingle(s, NoteLine(node.comment));
      NoteIff(s, node.comment);
    }
  }

  lemma {:induction false} WithinIsReading(s: State, key: TableKey, oid: nat, columns: seq<Column>)
    requires ReadsTable(s, key, oid)
    ensures Valid(s) && Valid(Within(s, oid, columns))
    ensures Within(s, oid, columns).ignored == 0 && !Within(s, oid, columns).inIndexes
  {
  }

  lemma {:induction false} AfterIsIdle(s: State, nodes: seq<Node>, titles: seq<Title>)
    requires IsAfter(s, nodes, titles)
    ensures Valid(s) && s.ignored == 0 && s.specs == []
  {
  }

  lemma {:induction false} TableRun(s: State, nodes: seq<Node>, titles: seq<Title>, node: Node, title: Title)
    requires |titles| == |nodes| && title !in titles && NodeOk(node, title) && Short(TableLines(node))
    requires IsAfter(s, nodes, titles)
    ensures Valid(s) && IsAfter(Run(s, TableLines(node)), nodes + [node], titles + [title])
  {
    hide After, ColumnLines, TableLines, HeaderLine, Step, ColumnOk, Run, NodeOk, Short, CommentOk, NoteLine, NoteLines;
    hide EnterTable, Within, ReadsTable, Valid;
    var key, oid := (title.schema, title.name), |nodes| + 1;
    TableTextParts(node, title);
    AfterIsIdle(s, nodes, titles);
    TableEntered(s, nodes, titles, title);
    TableLeft(s, nodes, titles, node, title);
    HeaderStep(s, title);
    var s1 := EnterTable(s, key);
    WithinIsReading(s1, key, oid, node.columns);
    ColumnsRun(s1, key, oid, node.columns);
    TableEnds(Within(s1, oid, node.columns), node);
    TableLinesRun(s, s1, Within(s1, oid, node.columns), HeaderLine(title.schema, title.name), ColumnLines(node.columns),
                  NoteLines(node) + ["}"]);
  }

  lemma {:induction false} TableLinesRun(s: State, s1: State, s2: State, header: string, lines: seq<string>,
    end: seq<string>)
    requires Valid(s) && Valid(s1) && Valid(s2)
    requires Step(s, header) == s1 && Run(s1, lines) == s2
    ensures Run(s, [header] + lines + end + [""]) == Run(s2, end)
  {
    hide Step, Run, Valid;
    RunSingle(s, header);
    RunConcat(s, [header], lines);
    RunConcat(s, [header] + lines, end);
    EmptyLast(s, [header] + lines + end);
  }

  lemma {:induction false} RunSingle(s: State, line: string)
    requires Valid(s)
    ensures Run(s, [line]) == Step(s, line)
  {
    assert [] + [line] == [line];
    RunOne(s, [], line);
  }

  lemma {:induction false} ShortParts(a: seq<string>, b: seq<string>)
    requires Short(a + b)
    ensures Short(a) && Short(b)
  {
    assert forall k :: 0 <= k < |a| ==> (a + b)[k] == a[k];
    assert forall k :: 0 <= k < |b| ==> (a + b)[|a| + k] == b[k];
  }

  lemma {:induction false} NodesPrefix(nodes: seq<Node>, titles: seq<Title>)
    requires NodesOk(nodes, titles) && nodes != []
    ensures var n := |nodes| - 1;
      |titles| == n + 1 && NodesOk(nodes[..n], titles[..n]) && NodeOk(nodes[n], titles[n]) && titles[n] !in titles[..n]
  {
    hide NodeOk;
  }

  lemma {:induction false} TablesStep(nodes: seq<Node>)
    requires nodes != [] && Short(AllTableLines(nodes))
    ensures var lines, last := AllTableLines(nodes[..|nodes| - 1]), TableLines(nodes[|nodes| - 1]);
      Short(lines) && Short(last) && Run(START, AllTableLines(nodes)) == Run(Run(START, lines), last)
  {
    hide Run, TableLines, Short;
    ShortParts(AllTableLines(nodes[..|nodes| - 1]), TableLines(nodes[|nodes| - 1]));
    RunConcat(START, AllTableLines(nodes[..|nodes| - 1]), TableLines(nodes[|nodes| - 1]));
  }

  lemma {:induction false} NoTables()
    ensures IsAfter(Run(START, AllTableLines([])), [], [])
  {
  }

  /** All tables. */
  lemma {:induction false} TablesRun(nodes: seq<Node>, titles: seq<Title>)
    requires NodesOk(nodes, titles) && Short(AllTableLines(nodes))
    ensures IsAfter(Run(START, AllTableLines(nodes)), nodes, titles)
  {
    hide TableLines, AllTableLines, After, NodesOk, NodeOk, Run, Short, IsAfter;
    if nodes == [] {
      NoTables();
      assert titles == [] by { SameLength(nodes, titles); }
    } else {
      var n := |nodes| - 1;
      NodesPrefix(nodes, titles);
      TablesStep(nodes);
      TablesRun(nodes[..n], titles[..n]);
      TableRun(Run(START, AllTableLines(nodes[..n])), nodes[..n], titles[..n], nodes[n], titles[n]);
      assert nodes[..n] + [nodes[n]] == nodes && titles[..n] + [titles[n]] == titles;
    }
  }

  lemma {:induction false} SameLength(nodes: seq<Node>, titles: seq<Title>)
    requires NodesOk(nodes, titles)
    ensures |titles| == |nodes|
  {
  }

  // ---------------------------------------------------------------- the references

  /** A column of a titled table, as written in a reference. */
  function Place(title: Title, column: string): string {
    Dotted(title.schema, title.name, SafeId(column))
  }

  lemma {:induction false} PlaceSplits(title: Title, column: string)
    requires title.Ok() && Readable(column)
    ensures SplitColumnRef(Place(title, column)) == ColumnRef(title.schema, title.name, column)
  {
    hide IsName, Readable, Bare, SafeId, Dotted, IsPlain;
    PlainIsName(title.schema);
    PlainIsName(title.name);
    NameWritten(column);
    DottedSplits(title.schema, title.name, SafeId(column));
  }

  lemma {:induction false} PlaceCalm(title: Title, column: string)
    requires title.Ok() && Readable(column)
    ensures Calm(Place(title, column))
    ensures var p := Place(title, column); p != "" && !IsSpace(p[|p| - 1])
  {
    var name := SafeId(column);
    NameWritten(column);
    WordIsCalm(title.schema);
    WordIsCalm(title.name);
    assert Calm(".") && Calm(name) && name != "" && !IsSpace(name[|name| - 1]);
    hide Calm, IsPlain, IsName, Readable, SafeId;
    CalmConcat(title.name, ".");
    CalmConcat(title.name + ".", name);
    CalmConcat(title.schema, ".");
    CalmConcat(title.schema + ".", title.name + "." + name);
    var p := Place(title, column);
    assert p == title.schema + "." + (title.name + "." + name);
    assert p[|p| - 1] == name[|name| - 1];
  }

  lemma {:induction false} RefClean(source: string, target: string)
    requires Calm(source) && Calm(target) && target != "" && !IsSpace(target[|target| - 1])
    ensures CleanLine(RefLine(source, target)) == RefLine(source, target)
    ensures Unbroken(RefLine(source, target)) && Visible(RefLine(source, target))
  {
    assert Calm("Ref: ") && Calm(" > ");
    var line := RefLine(source, target);
    assert line[0] == 'R' && line[|line| - 1] == target[|target| - 1];
    hide Calm;
    CalmConcat(" > ", target);
    CalmConcat(source, " > " + target);
    CalmConcat("Ref: ", source + (" > " + target));
    CleanText(line);
    CalmLine(line);
  }

  function SpecOf(child: Title, c: string, parent: Title, p: string): FkSpec {
    FkSpec(ColumnRef(child.schema, child.name, c), ColumnRef(parent.schema, parent.name, p))
  }

  lemma {:induction false} ReferenceFound(child: Title, c: string, parent: Title, p: string)
    requires child.Ok() && parent.Ok() && Readable(c) && Readable(p)
    ensures var line := RefLine(Place(child, c), Place(parent, p));
      && FindReference(line) == Some(Reference(Place(child, c), '>', Place(parent, p)))
      && StartsWithWord(line, "ref") && !StartsIgnored(line) && TableHeader(line).None?
      && CleanLine(line) == line
  {
    hide Dotted, Path, Comparison, FindReference, StartsWithWord, StartsIgnored, TableHeader, CleanLine, Calm, RefLine;
    hide IsName, IsPlain, Readable, SafeId, Bare, IsKeyword;
    PlainIsName(child.name);
    PlainIsName(parent.name);
    NameWritten(c);
    NameWritten(p);
    ComparisonReads(child.schema, child.name, SafeId(c), parent.schema, parent.name, SafeId(p));
    PlaceCalm(child, c);
    PlaceCalm(parent, p);
    RefReads(Place(child, c), Place(parent, p));
    RefSeen(Place(child, c), Place(parent, p));
    RefClean(Place(child, c), Place(parent, p));
  }

  lemma {:induction false} ReferenceStep(s: State, line: string)
    requires Valid(s) && s.ignored == 0 && line != "" && line[0] != '}' && |line| <= MAX_LINE && CleanLine(line) == line
    requires StartsWithWord(line, "ref") && !StartsIgnored(line) && TableHeader(line).None?
    ensures Step(s, line) == AddReference(s, line)
  {
    hide CleanLine, StartsIgnored, TableHeader, StartsWithWord, AddReference, Valid;
  }

  lemma {:induction false} ReferenceAdded(s: State, line: string, r: Reference)
    requires FindReference(line) == Some(r) && r.op == '>'
    requires SplitColumnRef(r.source).table != "" && SplitColumnRef(r.target).table != ""
    ensures AddReference(s, line) == s.(specs := s.specs + [FkSpec(SplitColumnRef(r.source), SplitColumnRef(r.target))])
  {
    hide FindReference, SplitColumnRef;
  }

  lemma {:induction false} EdgeStep(s: State, child: Title, c: string, parent: Title, p: string)
    requires Valid(s) && s.ignored == 0 && child.Ok() && parent.Ok() && Readable(c) && Readable(p)
    requires |RefLine(Place(child, c), Place(parent, p))| <= MAX_LINE
    ensures Step(s, RefLine(Place(child, c), Place(parent, p))) == s.(specs := s.specs + [SpecOf(child, c, parent, p)])
  {
    hide Place, CleanLine, StartsIgnored, TableHeader, StartsWithWord, FindReference, SplitColumnRef, Step,
      AddReference, Readable, Valid;
    var line := RefLine(Place(child, c), Place(parent, p));
    assert line[0] == 'R';
    ReferenceFound(child, c, parent, p);
    PlaceSplits(child, c);
    PlaceSplits(parent, p);
    ReferenceStep(s, line);
    ReferenceAdded(s, line, Reference(Place(child, c), '>', Place(parent, p)));
  }

  /** The ends of a written edge are nodes. */
  lemma {:induction false} EdgeEnds(nodes: seq<Node>, titles: seq<Title>, e: Edge)
    requires NodesOk(nodes, titles) && EdgeLines(nodes, e) != []
    ensures 0 < Position(nodes, e.source) <= |titles| && 0 < Position(nodes, e.target) <= |titles|
    ensures EdgeColumns(e).0 != [] && EdgeColumns(e).1 != []
    ensures var child, parent := titles[Position(nodes, e.source) - 1], titles[Position(nodes, e.target) - 1];
      && child.Ok() && parent.Ok()
      && EdgeLines(nodes, e) == [EdgeLine(child, EdgeColumns(e).0, parent, EdgeColumns(e).1)]
  {
    PositionFinds(nodes, e.source);
    PositionFinds(nodes, e.target);
    var i, j := Position(nodes, e.source) - 1, Position(nodes, e.target) - 1;
    hide Position, FindNode, ColumnOk, SafeId, RefName, EdgeColumns, RefLine, CommentOk;
    assert i >= 0 && j >= 0;
    assert NodeOk(nodes[i], titles[i]) && NodeOk(nodes[j], titles[j]);
    TitleWritten(titles[i]);
    TitleWritten(titles[j]);
  }

  /** Several columns of a titled table, as written in a reference. */
  function GroupOf(title: Title, names: seq<string>): string {
    title.Text() + ".(" + Join(SafeIds(names), ", ") + ")"
  }

  /** The line for an edge between two titled tables. */
  function EdgeLine(child: Title, c: seq<string>, parent: Title, p: seq<string>): string
    requires c != [] && p != []
  {
    if |c| == 1 then RefLine(child.Text() + "." + SafeId(c[0]), parent.Text() + "." + SafeId(p[0]))
    else RefLine(GroupOf(child, c), GroupOf(parent, p))
  }

  /** A written edge with one column at each end. */
  lemma {:induction false} EdgeText(nodes: seq<Node>, titles: seq<Title>, e: Edge)
    requires NodesOk(nodes, titles) && EdgeLines(nodes, e) != [] && Single(e)
    ensures 0 < Position(nodes, e.source) <= |titles| && 0 < Position(nodes, e.target) <= |titles|
    ensures EdgeLines(nodes, e) == [RefLine(
      Place(titles[Position(nodes, e.source) - 1], EdgeColumns(e).0[0]),
      Place(titles[Position(nodes, e.target) - 1], EdgeColumns(e).1[0]))]
  {
    hide NodesOk, Position, EdgeLines, EdgeLine, EdgeColumns, RefLine, Place;
    EdgeEnds(nodes, titles, e);
    SingleLine(titles[Position(nodes, e.source) - 1], EdgeColumns(e).0,
      titles[Position(nodes, e.target) - 1], EdgeColumns(e).1);
  }

  lemma {:induction false} SingleLine(child: Title, c: seq<string>, parent: Title, p: seq<string>)
    requires |c| == 1 && p != []
    ensures EdgeLine(child, c, parent, p) == RefLine(Place(child, c[0]), Place(parent, p[0]))
  {
    hide RefLine, Place, SafeId;
    PlaceText(child, c[0]);
    PlaceText(parent, p[0]);
  }

  lemma {:induction false} PlaceText(title: Title, column: string)
    ensures title.Text() + "." + SafeId(column) == Place(title, column)
  {
    hide SafeId;
  }

  // ---- composite keys

  /** What a list of plain names is made of. */
  predicate PlainText(s: string) {
    forall k :: 0 <= k < |s| ==> IsWordChar(s[k]) || s[k] in ['.', ',', ' ', '(', ')']
  }

  lemma {:induction false} PlainConcat(a: string, b: string)
    requires PlainText(a) && PlainText(b)
    ensures PlainText(a + b)
  {
  }

  lemma {:induction false} PlainJoin(names: seq<string>)
    requires AllPlain(names)
    ensures PlainText(Join(SafeIds(names), ", ")) && |SafeIds(names)| == |names|
    decreases |names|
  {
    hide PlainText, IsPlain, SafeId;
    MarksArePlain();
    if names != [] {
      PlainNameIsText(names[0]);
      PlainJoin(names[1..]);
      SafeIdsCons(names);
      PlainConcat(SafeId(names[0]), ", ");
      PlainConcat(SafeId(names[0]) + ", ", Join(SafeIds(names[1..]), ", "));
    }
  }

  lemma {:induction false} SafeIdsCons(names: seq<string>)
    requires names != []
    ensures SafeIds(names) == [SafeId(names[0])] + SafeIds(names[1..])
  {
    hide SafeId;
  }

  lemma {:induction false} MarksArePlain()
    ensures PlainText("") && PlainText(", ") && PlainText(".(") && PlainText(")") && PlainText(".")
  {
  }

  lemma {:induction false} PlainNameIsText(name: string)
    requires IsPlain(name)
    ensures PlainText(SafeId(name)) && PlainText(name)
  {
    PlainIsName(name);
  }

  lemma {:induction false} PlainTextIsHarmless(s: string)
    requires PlainText(s)
    ensures NoOperator(s) && '"' !in s && Calm(s)
  {
  }

  lemma {:induction false} GroupText(title: Title, names: seq<string>)
    requires title.Ok() && AllPlain(names)
    ensures var s := GroupOf(title, names);
      NoOperator(s) && '"' !in s && Calm(s) && s != "" && s[|s| - 1] == ')'
  {
    hide PlainText, IsPlain, SafeIds, NoOperator, Calm;
    MarksArePlain();
    PlainNameIsText(title.schema);
    PlainNameIsText(title.name);
    PlainConcat(title.schema, ".");
    PlainConcat(title.schema + ".", title.name);
    PlainConcat(title.Text(), ".(");
    PlainJoin(names);
    PlainConcat(title.Text() + ".(", Join(SafeIds(names), ", "));
    PlainConcat(title.Text() + ".(" + Join(SafeIds(names), ", "), ")");
    PlainTextIsHarmless(title.Text() + ".(" + Join(SafeIds(names), ", ") + ")");
  }

  /** The line of a composite key is seen as a reference in which nothing is found: it changes nothing. */
  lemma {:induction false} CompositeStep(s: State, child: Title, c: seq<string>, parent: Title, p: seq<string>)
    requires Valid(s) && s.ignored == 0 && child.Ok() && parent.Ok() && |c| > 1 && p != [] && AllPlain(c) && AllPlain(p)
    requires |EdgeLine(child, c, parent, p)| <= MAX_LINE
    ensures Step(s, EdgeLine(child, c, parent, p)) == s
  {
    hide CleanLine, StartsIgnored, TableHeader, StartsWithWord, FindReference, Step, SafeIds, Valid, NoOperator, Calm;
    var source, target := GroupOf(child, c), GroupOf(parent, p);
    GroupText(child, c);
    GroupText(parent, p);
    var line := RefLine(source, target);
    assert line[0] == 'R';
    RefClean(source, target);
    RefSeen(source, target);
    CompositeIsLost(source, target);
    ReferenceStep(s, line);
  }

  lemma {:induction false} EdgeLineComposite(child: Title, c: seq<string>, parent: Title, p: seq<string>)
    requires child.Ok() && parent.Ok() && |c| > 1 && p != [] && AllPlain(c) && AllPlain(p)
    ensures Unbroken(EdgeLine(child, c, parent, p)) && Visible(EdgeLine(child, c, parent, p))
  {
    hide CleanLine, SafeIds, NoOperator, Calm, Unbroken, Visible, RefLine;
    GroupText(child, c);
    GroupText(parent, p);
    RefClean(GroupOf(child, c), GroupOf(parent, p));
  }

  /** The references that the written edges become. */
  function Specs(nodes: seq<Node>, titles: seq<Title>, edges: seq<Edge>): seq<FkSpec>
    requires |titles| == |nodes|
  {
    if edges == [] then []
    else
      var before, e := Specs(nodes, titles, edges[..|edges| - 1]), edges[|edges| - 1];
      var child, parent := Position(nodes, e.source), Position(nodes, e.target);
      if EdgeLines(nodes, e) == [] || !Single(e) then before
      else if 0 < child <= |titles| && 0 < parent <= |titles| then
        before + [SpecOf(titles[child - 1], EdgeColumns(e).0[0], titles[parent - 1], EdgeColumns(e).1[0])]
      else before
  }

  lemma {:induction false} SpecsStep(nodes: seq<Node>, titles: seq<Title>, edges: seq<Edge>)
    requires NodesOk(nodes, titles) && edges != [] && EdgeOk(nodes, edges[|edges| - 1])
    ensures var init, e := edges[..|edges| - 1], edges[|edges| - 1];
      if EdgeLines(nodes, e) == [] || !Single(e) then Specs(nodes, titles, edges) == Specs(nodes, titles, init)
      else
        && 0 < Position(nodes, e.source) <= |titles| && 0 < Position(nodes, e.target) <= |titles|
        && Specs(nodes, titles, edges) == Specs(nodes, titles, init) + [SpecOf(
          titles[Position(nodes, e.source) - 1], EdgeColumns(e).0[0],
          titles[Position(nodes, e.target) - 1], EdgeColumns(e).1[0])]
  {
    var e := edges[|edges| - 1];
    if EdgeLines(nodes, e) != [] {
      EdgeEnds(nodes, titles, e);
    }
    hide EdgeLines, NodesOk, Position, Readable, EdgeColumns;
  }

  lemma {:induction false} EdgeTitles(nodes: seq<Node>, titles: seq<Title>, e: Edge)
    requires NodesOk(nodes, titles) && EdgeOk(nodes, e) && EdgeLines(nodes, e) != [] && Single(e)
    ensures 0 < Position(nodes, e.source) <= |titles| && 0 < Position(nodes, e.target) <= |titles|
    ensures titles[Position(nodes, e.source) - 1].Ok() && titles[Position(nodes, e.target) - 1].Ok()
    ensures Readable(EdgeColumns(e).0[0]) && Readable(EdgeColumns(e).1[0])
  {
    hide EdgeLines, Position, Readable, EdgeColumns, NodesOk;
    EdgeEnds(nodes, titles, e);
  }

  lemma {:induction false} ShortOne(line: string)
    requires Short([line])
    ensures |line| <= MAX_LINE
  {
    assert [line][0] == line;
  }

  /** One edge. */
  lemma {:induction false} EdgeRun(s: State, nodes: seq<Node>, titles: seq<Title>, e: Edge)
    requires Valid(s) && s.ignored == 0 && NodesOk(nodes, titles) && EdgeOk(nodes, e) && EdgeLines(nodes, e) != []
    requires Short(EdgeLines(nodes, e)) && Single(e)
    ensures 0 < Position(nodes, e.source) <= |titles| && 0 < Position(nodes, e.target) <= |titles|
    ensures Run(s, EdgeLines(nodes, e)) == s.(specs := s.specs + [SpecOf(
      titles[Position(nodes, e.source) - 1], EdgeColumns(e).0[0],
      titles[Position(nodes, e.target) - 1], EdgeColumns(e).1[0])])
  {
    hide NodesOk, EdgeLines, EdgeOk, Readable, Position, EdgeColumns, RefLine, Place, Step, ColumnOk, Run, Short;
    EdgeTitles(nodes, titles, e);
    EdgeText(nodes, titles, e);
    var child, parent := titles[Position(nodes, e.source) - 1], titles[Position(nodes, e.target) - 1];
    var line := RefLine(Place(child, EdgeColumns(e).0[0]), Place(parent, EdgeColumns(e).1[0]));
    ShortOne(line);
    RunSingle(s, line);
    EdgeStep(s, child, EdgeColumns(e).0[0], parent, EdgeColumns(e).1[0]);
  }

  lemma {:induction false} CompositeRun(s: State, nodes: seq<Node>, titles: seq<Title>, e: Edge)
    requires Valid(s) && s.ignored == 0 && NodesOk(nodes, titles) && EdgeOk(nodes, e) && EdgeLines(nodes, e) != []
    requires Short(EdgeLines(nodes, e)) && !Single(e)
    ensures Run(s, EdgeLines(nodes, e)) == s
  {
    hide NodesOk, EdgeLines, AllPlain, Position, EdgeColumns, EdgeLine, Step, Run, Short, Valid;
    EdgeEnds(nodes, titles, e);
    var child, parent := titles[Position(nodes, e.source) - 1], titles[Position(nodes, e.target) - 1];
    var line := EdgeLine(child, EdgeColumns(e).0, parent, EdgeColumns(e).1);
    ShortOne(line);
    RunSingle(s, line);
    CompositeStep(s, child, EdgeColumns(e).0, parent, EdgeColumns(e).1);
  }

  lemma {:induction false} EdgesStep(s: State, nodes: seq<Node>, edges: seq<Edge>)
    requires Valid(s) && edges != [] && Short(AllEdgeLines(nodes, edges))
    ensures var before, line := AllEdgeLines(nodes, edges[..|edges| - 1]), EdgeLines(nodes, edges[|edges| - 1]);
      && Short(before) && Short(line)
      && Run(s, AllEdgeLines(nodes, edges)) == Run(Run(s, before), line)
      && (line == [] ==> Run(s, AllEdgeLines(nodes, edges)) == Run(s, before))
  {
    hide Run, EdgeLines, Short;
    var before, line := AllEdgeLines(nodes, edges[..|edges| - 1]), EdgeLines(nodes, edges[|edges| - 1]);
    ShortParts(before, line);
    RunConcat(s, before, line);
    assert line == [] ==> before + line == before;
  }

  lemma {:induction false} NoEdges(s: State, nodes: seq<Node>, titles: seq<Title>)
    requires Valid(s) && s.specs == [] && |titles| == |nodes|
    ensures Run(s, AllEdgeLines(nodes, [])) == s.(specs := Specs(nodes, titles, []))
  {
  }

  lemma {:induction false} EdgesRun(s: State, nodes: seq<Node>, titles: seq<Title>, edges: seq<Edge>)
    requires Valid(s) && s.ignored == 0 && s.specs == [] && NodesOk(nodes, titles)
    requires (forall k :: 0 <= k < |edges| ==> EdgeOk(nodes, edges[k])) && Short(AllEdgeLines(nodes, edges))
    ensures |titles| == |nodes|
    ensures Run(s, AllEdgeLines(nodes, edges)) == s.(specs := Specs(nodes, titles, edges))
  {
    hide AllEdgeLines, NodesOk, Run, EdgeOk, EdgeLines, Short, Position, EdgeColumns, Specs;
    SameLength(nodes, titles);
    if edges == [] {
      NoEdges(s, nodes, titles);
    } else {
      var init, e := edges[..|edges| - 1], edges[|edges| - 1];
      EdgesStep(s, nodes, edges);
      SpecsStep(nodes, titles, edges);
      EdgesRun(s, nodes, titles, init);
      if EdgeLines(nodes, e) != [] {
        if Single(e) {
          EdgeRun(s.(specs := Specs(nodes, titles, init)), nodes, titles, e);
        } else {
          CompositeRun(s.(specs := Specs(nodes, titles, init)), nodes, titles, e);
        }
      }
    }
  }

  // ---------------------------------------------------------------- the written lines stay apart when joined

  predicate Separate(lines: seq<string>) {
    AllUnbroken(lines) && AllVisible(lines)
  }

  lemma {:induction false} SeparateParts(a: seq<string>, b: seq<string>)
    requires Separate(a) && Separate(b)
    ensures Separate(a + b)
  {
  }

  lemma {:induction false} SeparateOne(line: string)
    requires Unbroken(line) && Visible(line)
    ensures Separate([line])
  {
  }

  lemma {:induction false} ColumnLineSeparate(c: Column)
    requires ColumnOk(c)
    ensures Unbroken("  " + Dbml.ColumnText(c)) && Visible("  " + Dbml.ColumnText(c))
  {
    hide CleanLine, IsName, SafeId, SettingsOf, IsKeyword, Bare, Unbroken, Visible, ColumnOk, Calm, IsType, Tail,
      Dbml.ColumnText, DbmlLines.ColumnText, TypeOf;
    ColumnPieces(c);
    TypeCalm(TypeOf(c), SettingsOf(c));
    ColumnClean(SafeId(c.name), TypeOf(c) + Tail(SettingsOf(c)));
  }

  lemma {:induction false} ColumnLinesSeparate(columns: seq<Column>)
    requires forall k :: 0 <= k < |columns| ==> ColumnOk(columns[k])
    ensures Separate(ColumnLines(columns))
  {
    hide ColumnOk, Dbml.ColumnText, Unbroken, Visible, Separate;
    if columns == [] {
      SeparateNone();
    } else {
      var c := columns[|columns| - 1];
      ColumnLinesSeparate(columns[..|columns| - 1]);
      ColumnLineSeparate(c);
      SeparateOne("  " + Dbml.ColumnText(c));
      SeparateParts(ColumnLines(columns[..|columns| - 1]), ["  " + Dbml.ColumnText(c)]);
    }
  }

  lemma {:induction false} SeparateNone()
    ensures Separate([]) && Separate(["}", ""])
  {
  }

  lemma {:induction false} NoteSeparate(node: Node)
    requires CommentOk(node.comment)
    ensures Separate(NoteLines(node))
  {
    hide NoteKeeps, EscapeString;
  }

  lemma {:induction false} TableSeparate(node: Node, title: Title)
    requires NodeOk(node, title)
    ensures Separate(TableLines(node))
  {
    hide ColumnOk, Unbroken, Visible, Separate, ColumnLines, TableLines, HeaderLine, CleanLine, NoteLines, CommentOk;
    TableText(node, title);
    HeaderClean(title);
    SeparateOne(HeaderLine(title.schema, title.name));
    ColumnLinesSeparate(node.columns);
    NoteSeparate(node);
    SeparateNone();
    SeparateParts([HeaderLine(title.schema, title.name)], ColumnLines(node.columns));
    SeparateParts([HeaderLine(title.schema, title.name)] + ColumnLines(node.columns), NoteLines(node));
    SeparateParts([HeaderLine(title.schema, title.name)] + ColumnLines(node.columns) + NoteLines(node), ["}", ""]);
  }

  lemma {:induction false} TablesSeparate(nodes: seq<Node>, titles: seq<Title>)
    requires NodesOk(nodes, titles)
    ensures Separate(AllTableLines(nodes))
  {
    hide NodesOk, NodeOk, TableLines, Separate;
    if nodes == [] {
      SeparateNone();
    } else {
      var n := |nodes| - 1;
      NodesPrefix(nodes, titles);
      TablesSeparate(nodes[..n], titles[..n]);
      TableSeparate(nodes[n], titles[n]);
      SeparateParts(AllTableLines(nodes[..n]), TableLines(nodes[n]));
    }
  }

  lemma {:induction false} EdgeSeparate(nodes: seq<Node>, titles: seq<Title>, e: Edge)
    requires NodesOk(nodes, titles) && EdgeOk(nodes, e)
    ensures Separate(EdgeLines(nodes, e))
  {
    hide NodesOk, EdgeLines, Readable, Position, EdgeColumns, RefLine, Place, Calm, CleanLine, Separate, AllPlain,
      EdgeLine, Unbroken, Visible;
    if EdgeLines(nodes, e) == [] {
      SeparateNone();
    } else if !Single(e) {
      EdgeEnds(nodes, titles, e);
      var child, parent := titles[Position(nodes, e.source) - 1], titles[Position(nodes, e.target) - 1];
      EdgeLineComposite(child, EdgeColumns(e).0, parent, EdgeColumns(e).1);
      SeparateOne(EdgeLines(nodes, e)[0]);
    } else {
      EdgeTitles(nodes, titles, e);
      EdgeText(nodes, titles, e);
      var child, parent := titles[Position(nodes, e.source) - 1], titles[Position(nodes, e.target) - 1];
      PlaceCalm(child, EdgeColumns(e).0[0]);
      PlaceCalm(parent, EdgeColumns(e).1[0]);
      RefClean(Place(child, EdgeColumns(e).0[0]), Place(parent, EdgeColumns(e).1[0]));
      SeparateOne(EdgeLines(nodes, e)[0]);
    }
  }

  lemma {:induction false} EdgesSeparate(nodes: seq<Node>, titles: seq<Title>, edges: seq<Edge>)
    requires NodesOk(nodes, titles) && forall k :: 0 <= k < |edges| ==> EdgeOk(nodes, edges[k])
    ensures Separate(AllEdgeLines(nodes, edges))
  {
    hide NodesOk, EdgeLines, EdgeOk, Separate;
    if edges == [] {
      SeparateNone();
    } else {
      EdgesSeparate(nodes, titles, edges[..|edges| - 1]);
      EdgeSeparate(nodes, titles, edges[|edges| - 1]);
      SeparateParts(AllEdgeLines(nodes, edges[..|edges| - 1]), EdgeLines(nodes, edges[|edges| - 1]));
    }
  }

  lemma {:induction false} FirstLine(nodes: seq<Node>)
    requires nodes != []
    ensures AllTableLines(nodes) != [] && |AllTableLines(nodes)[0]| > 0 && AllTableLines(nodes)[0][0] == 'T'
  {
    if |nodes| > 1 {
      FirstLine(nodes[..|nodes| - 1]);
    } else {
      var line := "Table " + HeaderName(nodes[0].title) + " {";
      assert AllTableLines(nodes) == [] + TableLines(nodes[0]);
      assert TableLines(nodes[0])[0] == line && line[0] == 'T';
    }
  }

  // ---------------------------------------------------------------- the foreign keys

  lemma {:induction false} FkRowsPrefix(specs: seq<FkSpec>, last: FkSpec, oids: map<TableKey, nat>, n: nat)
    requires n <= |specs|
    ensures FkRows(specs + [last], oids, n) == FkRows(specs, oids, n)
  {
    if n > 0 {
      FkRowsPrefix(specs, last, oids, n - 1);
      assert (specs + [last])[n - 1] == specs[n - 1];
    }
  }

  lemma {:induction false} FkRowsStep(specs: seq<FkSpec>, titles: seq<Title>, i: nat, c: string, j: nat, p: string)
    requires i < |titles| && j < |titles| && forall a, b :: 0 <= a < b < |titles| ==> titles[a] != titles[b]
    ensures var all := specs + [SpecOf(titles[i], c, titles[j], p)];
      FkRows(all, Oids(titles), |all|) == FkRows(specs, Oids(titles), |specs|) + [FkRow(
        100000 + |specs| + 1, "fk_" + titles[i].name + "_" + c, i + 1, j + 1, c, p)]
  {
    var all := specs + [SpecOf(titles[i], c, titles[j], p)];
    OidsNumber(titles, i);
    OidsNumber(titles, j);
    FkRowsPrefix(specs, SpecOf(titles[i], c, titles[j], p), Oids(titles), |specs|);
    hide Oids;
    assert all[|specs|] == SpecOf(titles[i], c, titles[j], p);
  }

  lemma {:induction false} FksStep(nodes: seq<Node>, titles: seq<Title>, edges: seq<Edge>)
    requires NodesOk(nodes, titles) && edges != [] && EdgeOk(nodes, edges[|edges| - 1])
    ensures |titles| == |nodes|
    ensures var init, e := edges[..|edges| - 1], edges[|edges| - 1];
      var before := Fks(nodes, titles, init);
      if EdgeLines(nodes, e) == [] || !Single(e) then Fks(nodes, titles, edges) == before
      else
        && 0 < Position(nodes, e.source) <= |titles|
        && Fks(nodes, titles, edges) == before + [FkRow(
          100000 + |before| + 1, "fk_" + titles[Position(nodes, e.source) - 1].name + "_" + EdgeColumns(e).0[0],
          Position(nodes, e.source), Position(nodes, e.target), EdgeColumns(e).0[0], EdgeColumns(e).1[0])]
  {
    hide EdgeLines, EdgeOk, NodesOk, Position, Readable, EdgeColumns, Single;
    SameLength(nodes, titles);
    if EdgeLines(nodes, edges[|edges| - 1]) != [] && Single(edges[|edges| - 1]) {
      EdgeTitles(nodes, titles, edges[|edges| - 1]);
    }
  }

  lemma {:induction false} TitlesDistinct(nodes: seq<Node>, titles: seq<Title>)
    requires NodesOk(nodes, titles)
    ensures |titles| == |nodes| && forall a, b :: 0 <= a < b < |titles| ==> titles[a] != titles[b]
  {
  }

  lemma {:induction false} FksComeBack(nodes: seq<Node>, titles: seq<Title>, edges: seq<Edge>)
    requires NodesOk(nodes, titles) && forall k :: 0 <= k < |edges| ==> EdgeOk(nodes, edges[k])
    ensures |titles| == |nodes|
    ensures |Fks(nodes, titles, edges)| == |Specs(nodes, titles, edges)|
    ensures FkRows(Specs(nodes, titles, edges), Oids(titles), |Specs(nodes, titles, edges)|) ==
      Fks(nodes, titles, edges)
  {
    hide NodesOk, EdgeLines, EdgeOk, Position, EdgeColumns, Oids, FkRows, Specs, Fks;
    TitlesDistinct(nodes, titles);
    if edges == [] {
      NoFks(nodes, titles);
    } else {
      var init, e := edges[..|edges| - 1], edges[|edges| - 1];
      FksComeBack(nodes, titles, init);
      SpecsStep(nodes, titles, edges);
      FksStep(nodes, titles, edges);
      if EdgeLines(nodes, e) != [] && Single(e) {
        FkRowsStep(
          Specs(nodes, titles, init), titles, Position(nodes, e.source) - 1, EdgeColumns(e).0[0],
          Position(nodes, e.target) - 1, EdgeColumns(e).1[0]);
      }
    }
  }

  lemma {:induction false} NoFks(nodes: seq<Node>, titles: seq<Title>)
    requires |titles| == |nodes|
    ensures Fks(nodes, titles, []) == [] && Specs(nodes, titles, []) == [] && FkRows([], Oids(titles), 0) == []
  {
  }

  // ---------------------------------------------------------------- the round trip

  lemma {:induction false} DiagramParts(nodes: seq<Node>, titles: seq<Title>, edges: seq<Edge>)
    requires DiagramOk(nodes, titles, edges)
    ensures NodesOk(nodes, titles) && |titles| == |nodes|
    ensures forall k :: 0 <= k < |edges| ==> EdgeOk(nodes, edges[k])
    ensures Short(AllTableLines(nodes)) && Short(AllEdgeLines(nodes, edges))
  {
    hide AllTableLines, AllEdgeLines, EdgeOk, Short, NodeOk;
    ShortParts(AllTableLines(nodes), AllEdgeLines(nodes, edges));
  }

  /** The importer's variables after all lines. */
  lemma {:induction false} AllLinesRun(nodes: seq<Node>, titles: seq<Title>, edges: seq<Edge>)
    requires DiagramOk(nodes, titles, edges)
    ensures |titles| == |nodes|
    ensures Run(START, AllTableLines(nodes) + AllEdgeLines(nodes, edges)).(current := None) ==
      After(nodes, titles).(specs := Specs(nodes, titles, edges))
  {
    hide DiagramOk, NodesOk, EdgeOk, AllTableLines, AllEdgeLines, Run, Short, Specs, After;
    DiagramParts(nodes, titles, edges);
    TablesRun(nodes, titles);
    AfterIsIdle(Run(START, AllTableLines(nodes)), nodes, titles);
    EdgesRun(Run(START, AllTableLines(nodes)), nodes, titles, edges);
    RunConcat(START, AllTableLines(nodes), AllEdgeLines(nodes, edges));
  }

  lemma {:induction false} AllLinesSeparate(nodes: seq<Node>, titles: seq<Title>, edges: seq<Edge>)
    requires DiagramOk(nodes, titles, edges)
    ensures Separate(AllTableLines(nodes) + AllEdgeLines(nodes, edges))
  {
    hide DiagramOk, NodesOk, EdgeOk, AllTableLines, AllEdgeLines, Separate, Short;
    DiagramParts(nodes, titles, edges);
    TablesSeparate(nodes, titles);
    EdgesSeparate(nodes, titles, edges);
    SeparateParts(AllTableLines(nodes), AllEdgeLines(nodes, edges));
  }

  lemma {:induction false} SchemasOfTitles(titles: seq<Title>)
    ensures Schemas(Relations(titles)) == Orders.SortedStrings(set t | t in titles :: t.schema)
  {
    TitleSchemas(titles);
  }

  lemma {:induction false} TitleSchemas(titles: seq<Title>)
    ensures (set r | r in Relations(titles) :: r.schema) == (set t | t in titles :: t.schema)
  {
    if titles != [] {
      var init, last := titles[..|titles| - 1], titles[|titles| - 1];
      TitleSchemas(init);
      var row := Relation(|titles|, last.schema, last.name);
      assert forall r :: r in Relations(titles) <==> r in Relations(init) || r == row;
      assert titles == init + [last];
      assert (set r | r in Relations(titles) :: r.schema) == (set r | r in Relations(init) :: r.schema) + {last.schema};
      assert (set t | t in titles :: t.schema) == (set t | t in init :: t.schema) + {last.schema};
    }
  }

  lemma {:induction false} EmptyDiagram(edges: seq<Edge>)
    ensures Parse(Export([], edges)) == Snapshot([], [], [], [], [])
  {
    assert Lines("") == [] + [""];
    RunSingle(START, "");
    BlankStep(START);
    hide Run;
  }

  lemma {:induction false} NoFksWithoutNodes(edges: seq<Edge>)
    ensures Imported([], [], edges) == Snapshot([], [], [], [], [])
  {
    if edges != [] {
      NoFksWithoutNodes(edges[..|edges| - 1]);
    }
  }

  /**
   Importing the export of a diagram gives its schemas, tables, columns, keys and the foreign keys with one column
   back, in order.
   */
  lemma {:induction false} RoundTrip(nodes: seq<Node>, titles: seq<Title>, edges: seq<Edge>)
    requires DiagramOk(nodes, titles, edges)
    ensures |titles| == |nodes|
    ensures Parse(Export(nodes, edges)) == Imported(nodes, titles, edges)
  {
    hide DiagramOk, NodesOk, EdgeOk, AllTableLines, AllEdgeLines, Run, Lines, Cat, Strip, Specs, Fks, FkRows, Oids;
    DiagramParts(nodes, titles, edges);
    if nodes == [] {
      EmptyDiagram(edges);
      NoFksWithoutNodes(edges);
      assert titles == [];
    } else {
      var lines := AllTableLines(nodes) + AllEdgeLines(nodes, edges);
      FirstLine(nodes);
      assert lines[0] == AllTableLines(nodes)[0];
      AllLinesSeparate(nodes, titles, edges);
      TrimmedRun(START, lines);
      AllLinesRun(nodes, titles, edges);
      SchemasOfTitles(titles);
      FksComeBack(nodes, titles, edges);
    }
  }
}
