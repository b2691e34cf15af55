/**
 Writing a diagram as DBML (frontend/src/erd/dbml.ts) and reading DBML as a snapshot
 (backend/app/spec/dbml_import.py).
 */
module Dbml {
  import opened Dicts
  import opened Text
  import opened DbmlLines
  import IndexDefinitions
  import Orders

  // ---------------------------------------------------------------- the diagram

  /** A column of a diagram; an absent type or comment is the empty text. */
  datatype Column = Column(name: string, dataType: string, isNotNull: bool, isPk: bool, comment: string)

  datatype Node = Node(id: string, title: string, comment: string, columns: seq<Column>)

  /** A foreign key: its column lists if the edge carries them, else the handles it is attached to. */
  datatype Edge = Edge(
    source: string, target: string,
    columns: Option<(seq<string>, seq<string>)>, sourceHandle: string, targetHandle: string)

  // ---------------------------------------------------------------- writing

  function EscapeString(s: string): string {
    if s == "" then "" else (if s[0] == '\'' then "''" else [s[0]]) + EscapeString(s[1..])
  }

  /** A name as it is written: bare if it is a plain word, else quoted. */
  function SafeId(s: string): string {
    if s == "" then "" else if IsPlain(s) then s else IndexDefinitions.Q(s)
  }

  function SafeIds(names: seq<string>): seq<string> {
    if names == [] then [] else [SafeId(names[0])] + SafeIds(names[1..])
  }

  /** The title of a table in a reference. */
  function RefName(title: string): string {
    var parts := Split(title, '.');
    if |parts| > 1 then SafeId(parts[0]) + "." + SafeId(Join(parts[1..], ".")) else SafeId(title)
  }

  /** The title of a table in its header, where an empty schema is left away. */
  function HeaderName(title: string): string {
    var parts := Split(title, '.');
    if |parts| > 1 && parts[0] == "" then SafeId(Join(parts[1..], ".")) else RefName(title)
  }

  function TypeOf(c: Column): string {
    if c.dataType == "" then "varchar" else c.dataType
  }

  function SettingList(c: Column): seq<string> {
    (if c.isPk then ["pk"] else [])
    + (if c.isNotNull && !c.isPk then ["not null"] else [])
    + (if c.comment != "" then ["note: '" + EscapeString(c.comment) + "'"] else [])
  }

  function ColumnText(c: Column): string {
    DbmlLines.ColumnText(SafeId(c.name), TypeOf(c), Join(SettingList(c), ", "))
  }

  function ColumnLines(columns: seq<Column>): seq<string> {
    if columns == [] then []
    else ColumnLines(columns[..|columns| - 1]) + ["  " + ColumnText(columns[|columns| - 1])]
  }

  function TableLines(node: Node): seq<string> {
    ["Table " + HeaderName(node.title) + " {"] + ColumnLines(node.columns)
    + (if node.comment != "" then ["  Note: '" + EscapeString(node.comment) + "'"] else [])
    + ["}", ""]
  }

  function AllTableLines(nodes: seq<Node>): seq<string> {
    if nodes == [] then [] else AllTableLines(nodes[..|nodes| - 1]) + TableLines(nodes[|nodes| - 1])
  }

  /** The node with an id: the last one, if several have it. */
  function FindNode(nodes: seq<Node>, id: string): Option<Node> {
    if nodes == [] then None
    else if nodes[|nodes| - 1].id == id then Some(nodes[|nodes| - 1])
    else FindNode(nodes[..|nodes| - 1], id)
  }

  /** The handle without the first occurrence of its prefix. */
  function DropFirst(s: string, prefix: string): string {
    if |s| < |prefix| || prefix == "" then s
    else if s[..|prefix|] == prefix then s[|prefix|..]
    else [s[0]] + DropFirst(s[1..], prefix)
  }

  function EdgeColumns(e: Edge): (seq<string>, seq<string>) {
    if e.columns.Some? then e.columns.value
    else if e.sourceHandle != "" && e.targetHandle != "" then
      ([DropFirst(e.sourceHandle, "src-")], [DropFirst(e.targetHandle, "tgt-")])
    else ([], [])
  }

  /** The line for an edge, if it has one: both ends are known and have columns. */
  function EdgeLines(nodes: seq<Node>, e: Edge): seq<string> {
    var source, target := FindNode(nodes, e.source), FindNode(nodes, e.target);
    var (s, t) := EdgeColumns(e);
    if source.None? || target.None? || s == [] || t == [] then []
    else if |s| == 1 then
      [RefLine(RefName(source.value.title) + "." + SafeId(s[0]), RefName(target.value.title) + "." + SafeId(t[0]))]
    else
      [RefLine(
        RefName(source.value.title) + ".(" + Join(SafeIds(s), ", ") + ")",
        RefName(target.value.title) + ".(" + Join(SafeIds(t), ", ") + ")")]
  }

  function AllEdgeLines(nodes: seq<Node>, edges: seq<Edge>): seq<string> {
    if edges == [] then []
    else AllEdgeLines(nodes, edges[..|edges| - 1]) + EdgeLines(nodes, edges[|edges| - 1])
  }

  /** Lines, each with its line break. */
  function Cat(lines: seq<string>): string {
    if lines == [] then "" else Cat(lines[..|lines| - 1]) + lines[|lines| - 1] + "\n"
  }

  predicate IsBlank(c: char) {
    c == ' ' || '\t' <= c <= '\r'
  }

  function Export(nodes: seq<Node>, edges: seq<Edge>): string {
    if nodes == [] then ""
    else Strip(Cat(AllTableLines(nodes) + AllEdgeLines(nodes, edges)), IsBlank) + "\n"
  }

  lemma {:induction false} CatConcat(a: seq<string>, b: seq<string>)
    ensures Cat(a + b) == Cat(a) + Cat(b)
  {
    hide Cat;
    if b == [] {
      assert a + b == a;
      CatNothing(Cat(a));
    } else {
      var init, line := b[..|b| - 1], b[|b| - 1];
      CatConcat(a, init);
      CatOne(init, line);
      CatOne(a + init, line);
      OneMoreLine(Cat(a), Cat(init), line);
      assert b == init + [line] && a + b == a + init + [line];
    }
  }

  lemma {:induction false} OneMoreLine(a: string, b: string, line: string)
    ensures a + b + line + "\n" == a + (b + line + "\n")
  {
  }

  lemma {:induction false} CatOne(a: seq<string>, line: string)
    ensures Cat(a + [line]) == Cat(a) + line + "\n"
  {
    assert (a + [line])[..|a|] == a;
  }

  lemma {:induction false} CatNothing(before: string)
    ensures before + Cat([]) == before
  {
  }

  lemma {:induction false} ColumnLinesStep(columns: seq<Column>, i: int)
    requires 0 <= i < |columns|
    ensures ColumnLines(columns[..i + 1]) == ColumnLines(columns[..i]) + ["  " + ColumnText(columns[i])]
  {
    hide ColumnText;
    assert columns[..i + 1][..i] == columns[..i];
  }

  lemma {:induction false} EmitColumn(lines: seq<string>, columns: seq<Column>, i: int)
    requires 0 <= i < |columns|
    ensures Cat(lines + ColumnLines(columns[..i])) + ("  " + ColumnText(columns[i])) + "\n"
      == Cat(lines + ColumnLines(columns[..i + 1]))
  {
    hide ColumnText, Cat, ColumnLines;
    var line := "  " + ColumnText(columns[i]);
    ColumnLinesStep(columns, i);
    CatOne(lines + ColumnLines(columns[..i]), line);
    assert lines + ColumnLines(columns[..i + 1]) == lines + ColumnLines(columns[..i]) + [line];
  }

  method WriteColumns(columns: seq<Column>, before: string, ghost lines: seq<string>) returns (output: string)
    requires before == Cat(lines)
    ensures output == Cat(lines + ColumnLines(columns))
  {
    output := before;
    assert lines + ColumnLines(columns[..0]) == lines;
    hide ColumnText, ColumnLines, Cat;
    for i := 0 to |columns|
      invariant output == Cat(lines + ColumnLines(columns[..i]))
    {
      EmitColumn(lines, columns, i);
      output := output + ("  " + ColumnText(columns[i])) + "\n";
    }
    assert columns[..|columns|] == columns;
  }

  method WriteTable(node: Node, before: string, ghost lines: seq<string>) returns (output: string)
    requires before == Cat(lines)
    ensures output == Cat(lines + TableLines(node))
  {
    hide ColumnText, ColumnLines, HeaderName, EscapeString, Cat;
    var header := "Table " + HeaderName(node.title) + " {";
    CatOne(lines, header);
    output := WriteColumns(node.columns, before + header + "\n", lines + [header]);
    ghost var sofar := lines + [header] + ColumnLines(node.columns);
    if node.comment != "" {
      var note := "  Note: '" + EscapeString(node.comment) + "'";
      CatOne(sofar, note);
      output := output + note + "\n";
      sofar := sofar + [note];
    }
    CatOne(sofar, "}");
    output := output + "}" + "\n";
    CatOne(sofar + ["}"], "");
    output := output + "" + "\n";
    assert sofar + ["}"] + [""] == lines + TableLines(node);
  }

  method WriteTables(nodes: seq<Node>) returns (output: string)
    ensures output == Cat(AllTableLines(nodes))
  {
    output := "";
    hide TableLines, Cat;
    CatNothing("");
    for i := 0 to |nodes|
      invariant output == Cat(AllTableLines(nodes[..i]))
    {
      assert nodes[..i + 1][..i] == nodes[..i];
      output := WriteTable(nodes[i], output, AllTableLines(nodes[..i]));
    }
    assert nodes[..|nodes|] == nodes;
  }

  method WriteEdge(nodes: seq<Node>, e: Edge, before: string, ghost lines: seq<string>) returns (output: string)
    requires before == Cat(lines)
    ensures output == Cat(lines + EdgeLines(nodes, e))
  {
    OneLine(nodes, e);
    var line := EdgeLines(nodes, e);
    hide EdgeLines, Cat;
    output := before;
    assert lines + [] == lines;
    if line != [] {
      assert line == [line[0]];
      CatOne(lines, line[0]);
      output := output + line[0] + "\n";
    }
  }

  /** One more edge puts its lines at the end. */
  lemma {:induction false} EdgesNext(nodes: seq<Node>, edges: seq<Edge>, tables: seq<string>, i: nat)
    requires i < |edges|
    ensures tables + AllEdgeLines(nodes, edges[..i + 1]) ==
      tables + AllEdgeLines(nodes, edges[..i]) + EdgeLines(nodes, edges[i])
  {
    assert edges[..i + 1][..i] == edges[..i];
    hide EdgeLines;
  }

  /** The exporter. */
  method ExportDbml(nodes: seq<Node>, edges: seq<Edge>) returns (text: string)
    ensures text == Export(nodes, edges)
  {
    if nodes == [] {
      return "";
    }
    var output := WriteTables(nodes);
    ghost var tables := AllTableLines(nodes);
    assert tables + AllEdgeLines(nodes, edges[..0]) == tables;
    hide EdgeLines, Cat, AllTableLines, AllEdgeLines;
    for i := 0 to |edges|
      invariant output == Cat(tables + AllEdgeLines(nodes, edges[..i]))
    {
      EdgesNext(nodes, edges, tables, i);
      output := WriteEdge(nodes, edges[i], output, tables + AllEdgeLines(nodes, edges[..i]));
    }
    assert edges[..|edges|] == edges;
    return Strip(output, IsBlank) + "\n";
  }

  lemma {:induction false} OneLine(nodes: seq<Node>, e: Edge)
    ensures |EdgeLines(nodes, e)| <= 1
  {
  }

  // ---------------------------------------------------------------- reading

  datatype Relation = Relation(oid: nat, schema: string, name: string)

  datatype ColumnRow = ColumnRow(
    oid: nat, name: string, position: nat, dataType: string, isNotNull: bool, hasDefault: bool)

  datatype PkRow = PkRow(oid: nat, name: string, ordinal: nat)

  datatype FkSpec = FkSpec(child: ColumnRef, parent: ColumnRef)

  datatype FkRow = FkRow(
    oid: nat, name: string, child: nat, parent: nat, childColumn: string, parentColumn: string)

  datatype Snapshot = Snapshot(
    schemas: seq<string>, relations: seq<Relation>, columns: seq<ColumnRow>, pks: seq<PkRow>, fks: seq<FkRow>)

  type TableKey = (string, string)

  /** The local variables of the importer. */
  datatype State = State(
    relations: seq<Relation>, columns: seq<ColumnRow>, pks: seq<PkRow>, specs: seq<FkSpec>,
    oids: map<TableKey, nat>, nextOid: nat, current: Option<TableKey>, ignored: int, inIndexes: bool)

  const START := State([], [], [], [], map[], 1, None, 0, false)

  const MAX_LINE := 4096

  function CountChar(s: string, c: char): nat {
    if s == "" then 0 else (if s[0] == c then 1 else 0) + CountChar(s[1..], c)
  }

  function Braces(line: string): int {
    CountChar(line, '{') - CountChar(line, '}')
  }

  function CountOid(columns: seq<ColumnRow>, oid: nat): nat {
    if columns == [] then 0
    else CountOid(columns[..|columns| - 1], oid) + if columns[|columns| - 1].oid == oid then 1 else 0
  }

  function EnterTable(s: State, key: TableKey): State {
    var t := s.(current := Some(key));
    if key in s.oids then t
    else t.(
      oids := s.oids[key := s.nextOid],
      relations := s.relations + [Relation(s.nextOid, key.0, key.1)],
      nextOid := s.nextOid + 1)
  }

  function AddReference(s: State, line: string): State {
    match FindReference(line)
    case None => s
    case Some(r) =>
      var from, to := SplitColumnRef(r.source), SplitColumnRef(r.target);
      var spec := if r.op == '<' then FkSpec(to, from) else FkSpec(from, to);
      if spec.child.table != "" && spec.parent.table != "" then s.(specs := s.specs + [spec]) else s
  }

  function StartsIndexes(line: string): bool {
    StartsWith(line, "indexes")
    && var rest := StripLeft(line[7..], IsSpace);
      rest != "" && rest[0] == '{'
  }

  function AddColumn(s: State, key: TableKey, c: ColumnLine): State
    requires key in s.oids
  {
    var oid, settings := s.oids[key], LowerAll(c.settings);
    var isPk := SaysPrimaryKey(settings);
    var row := ColumnRow(
      oid, c.name, CountOid(s.columns, oid) + 1, c.dataType,
      isPk || Contains(settings, "not null"), Contains(settings, "default:"));
    var t := s.(
      columns := s.columns + [row],
      pks := if isPk then s.pks + [PkRow(oid, c.name, |s.pks| + 1)] else s.pks);
    match FindInline(c.settings)
    case None => t
    case Some((op, target)) =>
      var here, there := ColumnRef(key.0, key.1, c.name), SplitColumnRef(target);
      t.(specs := t.specs + [if op == '<' then FkSpec(there, here) else FkSpec(here, there)])
  }

  function CleanLine(raw: string): string {
    Strip(CutComment(raw), IsSpace)
  }

  /** The table being read is one that has been numbered. */
  predicate Valid(s: State) {
    s.current.Some? ==> s.current.value in s.oids
  }

  function StepClean(s: State, line: string): (r: State)
    requires Valid(s)
    ensures Valid(r)
  {
    if line == "" then s
    else if s.ignored != 0 then s.(ignored := s.ignored + Braces(line))
    else if StartsIgnored(line) then
      s.(ignored := if Braces(line) <= 0 && '{' !in line then 1 else Braces(line))
    else if TableHeader(line).Some? then EnterTable(s, TableHeader(line).value)
    else if line[0] == '}' then s.(current := None, inIndexes := false)
    else if StartsWithWord(line, "ref") then AddReference(s, line)
    else if s.current.None? then s
    else if StartsIndexes(line) then s.(inIndexes := true)
    else if s.inIndexes then s.(inIndexes := '}' !in line)
    else
      match ColumnOf(line)
      case None => s
      case Some(c) => AddColumn(s, s.current.value, c)
  }

  function Step(s: State, raw: string): (r: State)
    requires Valid(s)
    ensures Valid(r)
  {
    if |raw| > MAX_LINE then s else StepClean(s, CleanLine(raw))
  }

  function Run(s: State, lines: seq<string>): (r: State)
    requires Valid(s)
    ensures Valid(r)
  {
    if lines == [] then s else Step(Run(s, lines[..|lines| - 1]), lines[|lines| - 1])
  }

  /** The lines of a text. */
  function Lines(text: string): (lines: seq<string>)
    ensures |lines| > 0
  {
    if text == "" then [""]
    else
      var rest := Lines(text[1..]);
      if IsBreak(text[0]) then [""] + rest else [[text[0]] + rest[0]] + rest[1..]
  }

  /** The foreign keys of the first `n` references whose tables are both in the document. */
  function FkRows(specs: seq<FkSpec>, oids: map<TableKey, nat>, n: nat): seq<FkRow>
    requires n <= |specs|
  {
    if n == 0 then []
    else
      var child, parent := specs[n - 1].child, specs[n - 1].parent;
      var before := FkRows(specs, oids, n - 1);
      if (child.schema, child.table) in oids && (parent.schema, parent.table) in oids then
        before + [FkRow(
          100000 + n, "fk_" + child.table + "_" + child.column, oids[(child.schema, child.table)],
          oids[(parent.schema, parent.table)], child.column, parent.column)]
      else before
  }

  /** The names of the schemas, each once and in order. */
  function Schemas(relations: seq<Relation>): seq<string> {
    Orders.SortedStrings(set r | r in relations :: r.schema)
  }

  function Finish(s: State): Snapshot {
    Snapshot(Schemas(s.relations), s.relations, s.columns, s.pks, FkRows(s.specs, s.oids, |s.specs|))
  }

  function Parse(text: string): Snapshot {
    Finish(Run(START, Lines(text)))
  }

  /** The importer: one pass over the lines, then one over the references. */
  method ParseDbml(text: string) returns (snapshot: Snapshot)
    ensures snapshot == Parse(text)
  {
    hide CleanLine, StartsIgnored, TableHeader, EnterTable, AddReference, StartsIndexes, ColumnOf, AddColumn, Braces;
    hide StartsWithWord, Lines;
    var lines := Lines(text);
    var s := START;
    for i := 0 to |lines|
      invariant Valid(s) && s == Run(START, lines[..i])
    {
      assert lines[..i + 1][..i] == lines[..i];
      var raw := lines[i];
      if |raw| > MAX_LINE {
        continue;
      }
      var line := CleanLine(raw);
      ghost var next := StepClean(s, line);
      if line == "" {
        continue;
      }
      if s.ignored != 0 {
        s := s.(ignored := s.ignored + Braces(line));
        continue;
      }
      if StartsIgnored(line) {
        s := s.(ignored := Braces(line));
        if s.ignored <= 0 && '{' !in line {
          s := s.(ignored := 1);
        }
        continue;
      }
      var header := TableHeader(line);
      if header.Some? {
        s := EnterTable(s, header.value);
        continue;
      }
      if line[0] == '}' {
        s := s.(current := None, inIndexes := false);
        continue;
      }
      if StartsWithWord(line, "ref") {
        s := AddReference(s, line);
        continue;
      }
      if s.current.None? {
        continue;
      }
      if StartsIndexes(line) {
        s := s.(inIndexes := true);
        continue;
      }
      if s.inIndexes {
        if '}' in line {
          s := s.(inIndexes := false);
        }
        continue;
      }
      var c := ColumnOf(line);
      if c.None? {
        continue;
      }
      s := AddColumn(s, s.current.value, c.value);
    }
    assert lines[..|lines|] == lines;
    var fks := [];
    for i := 0 to |s.specs|
      invariant fks == FkRows(s.specs, s.oids, i)
    {
      var child, parent := s.specs[i].child, s.specs[i].parent;
      if (child.schema, child.table) in s.oids && (parent.schema, parent.table) in s.oids {
        fks := fks + [FkRow(
          100000 + i + 1, "fk_" + child.table + "_" + child.column, s.oids[(child.schema, child.table)],
          s.oids[(parent.schema, parent.table)], child.column, parent.column)];
      }
    }
    return Snapshot(Schemas(s.relations), s.relations, s.columns, s.pks, fks);
  }
}
