/**
 The line scanners of the DBML importer (backend/app/spec/dbml_import.py): table headers, columns, references.
 Each regular expression is written out as the scan it performs, with its order of attempts.
 */
module DbmlLines {
  import opened Dicts
  import opened Text

  /** What a scan took from the front of a text, and what it left. */
  datatype Scan = Nothing | Found(text: string, rest: string)

  predicate IsNotQuote(c: char) {
    c != '"'
  }

  predicate IsNotDot(c: char) {
    c != '.'
  }

  predicate IsNotClosing(c: char) {
    c != ')'
  }

  predicate StartsWith(s: string, word: string) {
    |word| <= |s| && LowerAll(s[..|word|]) == word
  }

  /** The text starts with the whole word, in any case. */
  predicate StartsWithWord(s: string, word: string) {
    StartsWith(s, word) && (|s| == |word| || !IsWordChar(s[|word|]))
  }

  /** The line starts a block that the importer skips. */
  predicate StartsIgnored(line: string) {
    || StartsWithWord(line, "project") || StartsWithWord(line, "enum")
    || StartsWithWord(line, "tablegroup") || StartsWithWord(line, "note")
  }

  function CutComment(line: string): string {
    if line == "" || (|line| > 1 && line[0] == '/' && line[1] == '/') then "" else [line[0]] + CutComment(line[1..])
  }

  // ---------------------------------------------------------------- table headers

  predicate IsTableNameChar(c: char) {
    IsWordChar(c) || c == '.'
  }

  function TableName(s: string): (r: Scan)
    ensures r.Found? ==> |r.rest| <= |s|
  {
    if s == "" then Nothing
    else if s[0] == '"' then
      var name := Span(s[1..], IsNotQuote);
      if name == "" || |name| + 1 >= |s| then Nothing else Found(name, s[|name| + 2..])
    else
      var raw := Span(s, IsTableNameChar);
      if raw == "" || "" in Split(raw, '.') then Nothing else Found(raw, s[|raw|..])
  }

  /** What may follow the name of a table on its line: an alias, an opening brace, both or neither. */
  predicate TailOk(tail: string) {
    var rest := Strip(tail, IsSpace);
    if rest == "" then true
    else if StartsWith(rest, "as") && (|rest| == 2 || IsSpace(rest[2])) then
      var alias := StripLeft(rest[2..], IsSpace);
      var name := Span(alias, IsWordChar);
      var after := StripLeft(alias[|name|..], IsSpace);
      name != "" && (after == "" || after == "{")
    else rest == "{"
  }

  function SplitTableName(raw: string): (string, string) {
    var name := Strip(Strip(raw, IsSpace), IsQuote);
    if '.' in name then
      var schema := Span(name, IsNotDot);
      (Strip(schema, IsQuote), if |schema| < |name| then Strip(name[|schema| + 1..], IsQuote) else "")
    else ("public", name)
  }

  function TableHeader(line: string): Option<(string, string)> {
    if |line| < 6 || LowerAll(line[..5]) != "table" || !IsSpace(line[5]) then None
    else
      match TableName(StripLeft(line[5..], IsSpace))
      case Nothing => None
      case Found(raw, tail) => if TailOk(tail) then Some(SplitTableName(raw)) else None
  }

  // ---------------------------------------------------------------- references

  /** One name of a dotted path, with its quotes. */
  function Segment(s: string): (r: Scan)
    ensures r.Found? ==> |r.rest| < |s|
  {
    if s != "" && s[0] == '"' then
      var name := Span(s[1..], IsNotQuote);
      if name == "" || |name| + 1 >= |s| then Nothing else Found(s[..|name| + 2], s[|name| + 2..])
    else
      var word := Span(s, IsWordChar);
      if word == "" then Nothing else Found(word, s[|word|..])
  }

  /** The longest dotted path at the start of a text. */
  function Path(s: string): (r: Scan)
    ensures r.Found? ==> |r.rest| < |s|
    decreases |s|
  {
    match Segment(s)
    case Nothing => Nothing
    case Found(first, rest) =>
      if rest != "" && rest[0] == '.' && Path(rest[1..]).Found? then
        var more := Path(rest[1..]);
        Found(first + "." + more.text, more.rest)
      else Found(first, rest)
  }

  /** The parts of a path between dots outside quotes. */
  function Parts(path: string): seq<string>
    decreases |path|
  {
    if path == "" then []
    else
      var quoted := if path[0] == '"' then Span(path[1..], IsNotQuote) else "";
      if quoted != "" && |quoted| + 1 < |path| then [path[..|quoted| + 2]] + Parts(path[|quoted| + 2..])
      else if path[0] == '.' then Parts(path[1..])
      else
        var run := Span(path, IsNotDot);
        [run] + Parts(path[|run|..])
  }

  datatype ColumnRef = ColumnRef(schema: string, table: string, column: string)

  function SplitColumnRef(path: string): ColumnRef {
    var parts := Parts(Strip(path, IsSpace));
    if |parts| >= 3 then ColumnRef(Strip(parts[0], IsQuote), Strip(parts[1], IsQuote), Strip(parts[2], IsQuote))
    else if |parts| == 2 then ColumnRef("public", Strip(parts[0], IsQuote), Strip(parts[1], IsQuote))
    else if |parts| == 1 then ColumnRef("public", "", Strip(parts[0], IsQuote))
    else ColumnRef("public", "", "")
  }

  datatype Reference = Reference(source: string, op: char, target: string)

  predicate IsOperator(c: char) {
    c == '<' || c == '>' || c == '-'
  }

  /** An optional colon, a path, an operator, a path. */
  function Comparison(s: string): Option<Reference> {
    var a := StripLeft(s, IsSpace);
    var b := if a != "" && a[0] == ':' then StripLeft(a[1..], IsSpace) else a;
    match Path(b)
    case Nothing => None
    case Found(source, rest) =>
      var c := StripLeft(rest, IsSpace);
      if c == "" || !IsOperator(c[0]) then None
      else
        match Path(StripLeft(c[1..], IsSpace))
        case Nothing => None
        case Found(target, _) => Some(Reference(source, c[0], target))
  }

  /** Tries to take a name of `n` characters first, then shorter ones, then none. */
  function NamedComparison(s: string, n: nat): Option<Reference>
    requires n <= |s|
  {
    if Comparison(s[n..]).Some? then Comparison(s[n..])
    else if n == 0 then None
    else NamedComparison(s, n - 1)
  }

  /** The reference at the start of a text. */
  function ReferenceHere(line: string): Option<Reference> {
    if StartsWith(line, "ref") then
      var s := StripLeft(line[3..], IsSpace);
      NamedComparison(s, |Span(s, IsWordChar)|)
    else None
  }

  /** The first place where the text reads as a reference. */
  function FindReference(line: string): Option<Reference> {
    if line == "" then None
    else if ReferenceHere(line).Some? then ReferenceHere(line)
    else FindReference(line[1..])
  }

  /** The reference among the settings of a column: its operator and its target. */
  function FindInline(settings: string): Option<(char, string)> {
    if settings == "" then None
    else
      var s := if StartsWith(settings, "ref:") then StripLeft(settings[4..], IsSpace) else "";
      if s != "" && IsOperator(s[0]) && Path(StripLeft(s[1..], IsSpace)).Found? then
        Some((s[0], Path(StripLeft(s[1..], IsSpace)).text))
      else FindInline(settings[1..])
  }

  // ---------------------------------------------------------------- columns

  datatype ColumnLine = ColumnLine(name: string, dataType: string, settings: string)

  /** The bracketed settings at the end of a line, empty if there are none. */
  function Settings(tail: string): Option<string> {
    var s := Strip(tail, IsSpace);
    if s == "" then Some("")
    else if |s| >= 2 && s[0] == '[' && s[|s| - 1] == ']' then Some(s[1..|s| - 1])
    else None
  }

  function TypeArguments(s: string): (r: string)
    ensures |r| <= |s|
  {
    if s != "" && s[0] == '(' then
      var inside := Span(s[1..], IsNotClosing);
      if |inside| + 1 < |s| then s[..|inside| + 2] else ""
    else ""
  }

  /** A type, perhaps with arguments and array brackets, and the settings; the brackets are tried first. */
  function TypeAndSettings(s: string): Option<(string, string)> {
    var word := Span(s, IsWordChar);
    var arguments := TypeArguments(s[|word|..]);
    var dataType, tail := word + arguments, s[|word|..][|arguments|..];
    if word == "" then None
    else if |tail| >= 2 && tail[..2] == "[]" && Settings(tail[2..]).Some? then
      Some((dataType + "[]", Settings(tail[2..]).value))
    else if Settings(tail).Some? then Some((dataType, Settings(tail).value))
    else None
  }

  function ColumnOf(line: string): Option<ColumnLine> {
    match Segment(line)
    case Nothing => None
    case Found(name, rest) =>
      var s := StripLeft(rest, IsSpace);
      if |s| == |rest| then None
      else
        match TypeAndSettings(s)
        case None => None
        case Some((dataType, settings)) => Some(ColumnLine(Strip(name, IsQuote), dataType, settings))
  }

  predicate WordAt(s: string, word: string, k: nat) {
    && OccursAt(s, word, k)
    && (k == 0 || !IsWordChar(s[k - 1]))
    && (k + |word| == |s| || !IsWordChar(s[k + |word|]))
  }

  predicate PrimaryKeyAt(s: string, k: nat) {
    && OccursAt(s, "primary", k)
    && var after := StripLeft(s[k + 7..], IsSpace);
      |after| < |s| - k - 7 && |after| >= 3 && after[..3] == "key"
  }

  predicate SaysPrimaryKey(settings: string) {
    exists k: nat | k <= |settings| :: WordAt(settings, "pk", k) || PrimaryKeyAt(settings, k)
  }

  // ---------------------------------------------------------------- names as they are printed

  predicate IsPlain(s: string) {
    s != "" && IsLetter(s[0]) && forall k :: 0 <= k < |s| ==> IsWordChar(s[k])
  }

  predicate IsBreak(c: char) {
    '\n' <= c <= '\r' || '\U{1c}' <= c <= '\U{1e}'
  }

  /** Text that is neither cut at a comment nor at the end of a line, whatever it is joined with. */
  predicate Calm(s: string) {
    && (forall k :: 0 <= k < |s| ==> !IsBreak(s[k]))
    && (forall k :: 0 <= k < |s| - 1 ==> s[k] != '/' || s[k + 1] != '/')
    && (s != "" ==> s[0] != '/' && s[|s| - 1] != '/')
  }

  /** A printed name: a plain word, or anything but quotes between quotes. */
  predicate IsName(s: string) {
    && Calm(s)
    && (IsPlain(s)
        || (|s| > 2 && s[0] == '"' && s[|s| - 1] == '"' && forall k :: 0 < k < |s| - 1 ==> s[k] != '"'))
  }

  function Bare(s: string): string {
    if |s| > 2 && s[0] == '"' then s[1..|s| - 1] else s
  }

  predicate EndsWord(r: string) {
    r == "" || !IsWordChar(r[0])
  }

  lemma {:induction false} PlainSegmentReads(s: string, r: string)
    requires IsPlain(s) && EndsWord(r)
    ensures Segment(s + r) == Found(s, r)
  {
    var all := s + r;
    SpanStops(s, r, IsWordChar);
    assert all[0] == s[0];
    assert all[|s|..] == r;
  }

  lemma {:induction false} QuotedSegmentReads(s: string, r: string)
    requires IsName(s) && !IsPlain(s)
    ensures Segment(s + r) == Found(s, r)
  {
    var all, inside := s + r, s[1..|s| - 1];
    assert all[1..] == inside + (['"'] + r);
    SpanStops(inside, ['"'] + r, IsNotQuote);
    assert all[..|s|] == s && all[|s|..] == r;
  }

  lemma {:induction false} SegmentReads(s: string, r: string)
    requires IsName(s) && EndsWord(r)
    ensures Segment(s + r) == Found(s, r)
  {
    hide IsName, IsPlain, Segment, EndsWord;
    if IsPlain(s) {
      PlainSegmentReads(s, r);
    } else {
      QuotedSegmentReads(s, r);
    }
  }

  lemma {:induction false} StripBare(s: string)
    requires IsName(s)
    ensures Strip(s, IsQuote) == Bare(s)
  {
    if IsPlain(s) {
      StripEnds(s, IsQuote);
    } else {
      var inside := s[1..|s| - 1];
      assert s[1..] == inside + ['"'];
      var left := inside + ['"'];
      assert left[0] == s[1] && StripLeft(left, IsQuote) == left;
      assert StripLeft(s, IsQuote) == left;
      assert left[..|left| - 1] == inside && inside[|inside| - 1] == s[|s| - 2];
      assert StripRight(inside, IsQuote) == inside;
    }
  }

  /** Three printed names with dots between them. */
  function Dotted(schema: string, table: string, column: string): string {
    schema + "." + (table + "." + column)
  }

  lemma {:induction false} PathJoins(text: string, first: string, more: string)
    requires Segment(text) == Found(first, "." + more) && Path(more).Found?
    ensures Path(text) == Found(first + "." + Path(more).text, Path(more).rest)
  {
    hide Segment;
    assert ("." + more)[1..] == more;
  }

  lemma {:induction false} PathStep(s: string, r: string)
    requires IsName(s) && Path(r).Found?
    ensures Path(s + "." + r) == Found(s + "." + Path(r).text, Path(r).rest)
  {
    hide IsName, Segment, Path;
    assert s + "." + r == s + ("." + r);
    SegmentReads(s, "." + r);
    PathJoins(s + "." + r, s, r);
  }

  lemma {:induction false} PathEnd(s: string, r: string)
    requires IsName(s) && EndsWord(r) && (r == "" || r[0] != '.')
    ensures Path(s + r) == Found(s, r)
  {
    SegmentReads(s, r);
  }

  lemma {:induction false} DottedReads(schema: string, table: string, column: string, r: string)
    requires IsName(schema) && IsName(table) && IsName(column) && EndsWord(r) && (r == "" || r[0] != '.')
    ensures Path(Dotted(schema, table, column) + r) == Found(Dotted(schema, table, column), r)
  {
    hide IsName, Path;
    PathEnd(column, r);
    PathStep(table, column + r);
    PathStep(schema, table + "." + (column + r));
    assert Dotted(schema, table, column) + r == schema + "." + (table + "." + (column + r));
    assert Dotted(schema, table, column) == schema + "." + (table + "." + column);
  }

  lemma {:induction false} PartsStep(s: string, r: string)
    requires IsName(s)
    ensures Parts(s + "." + r) == [s] + Parts(r)
  {
    var all := s + "." + r;
    assert all == s + ("." + r);
    assert ("." + r)[1..] == r && ("." + r)[0] == '.';
    assert Parts("." + r) == Parts(r);
    PartsRun(s, "." + r);
  }

  /** A printed name at the end of the path or before a dot is one part. */
  lemma {:induction false} PartsRun(s: string, r: string)
    requires IsName(s) && (r == "" || r[0] == '.')
    ensures Parts(s + r) == [s] + Parts(r)
  {
    var all := s + r;
    assert all[0] == s[0] && all[|s|..] == r && all[..|s|] == s;
    if IsPlain(s) {
      SpanStops(s, r, IsNotDot);
    } else {
      var inside := s[1..|s| - 1];
      assert all[1..] == inside + (['"'] + r);
      SpanStops(inside, ['"'] + r, IsNotQuote);
    }
  }

  lemma {:induction false} DottedStripped(schema: string, table: string, column: string)
    requires IsName(schema) && IsName(table) && IsName(column)
    ensures Strip(Dotted(schema, table, column), IsSpace) == Dotted(schema, table, column)
  {
    var path := Dotted(schema, table, column);
    assert path[0] == schema[0] && path[|path| - 1] == column[|column| - 1];
    StripEnds(path, IsSpace);
    hide Strip;
  }

  lemma {:induction false} DottedParts(schema: string, table: string, column: string)
    requires IsName(schema) && IsName(table) && IsName(column)
    ensures Parts(Dotted(schema, table, column)) == [schema, table, column]
  {
    hide IsName, Parts;
    PartsRun(column, "");
    assert column + "" == column;
    NoParts();
    PartsStep(table, column);
    PartsStep(schema, table + "." + column);
    assert [schema] + ([table] + ([column] + [])) == [schema, table, column];
  }

  /** A reference to a column is split into what was joined. */
  lemma {:induction false} DottedSplits(schema: string, table: string, column: string)
    requires IsName(schema) && IsName(table) && IsName(column)
    ensures SplitColumnRef(Dotted(schema, table, column)) == ColumnRef(Bare(schema), Bare(table), Bare(column))
  {
    hide IsName, Parts, Strip, Bare, Dotted;
    DottedStripped(schema, table, column);
    DottedParts(schema, table, column);
    StripBare(schema);
    StripBare(table);
    StripBare(column);
  }

  lemma {:induction false} NoParts()
    ensures Parts("") == []
  {
  }

  // ---------------------------------------------------------------- printed lines

  predicate IsWordText(w: string) {
    w != "" && forall k :: 0 <= k < |w| ==> IsWordChar(w[k])
  }

  lemma {:induction false} LowerKeepsWord(s: string)
    ensures forall k :: 0 <= k < |s| ==> (IsWordChar(LowerAll(s)[k]) <==> IsWordChar(s[k]))
  {
  }

  lemma {:induction false} NameStarts(name: string)
    requires IsName(name)
    ensures name != "" && (if IsPlain(name) then IsWordText(name) else !IsWordChar(name[0]))
  {
  }

  lemma {:induction false} StartsInWord(line: string, word: string, k: nat)
    requires StartsWith(line, word) && IsWordText(word) && k < |word|
    ensures k < |line| && IsWordChar(line[k])
  {
    LowerKeepsWord(line[..|word|]);
  }

  lemma {:induction false} QuoteIsNoWord(line: string, word: string)
    requires line != "" && !IsWordChar(line[0]) && IsWordText(word)
    ensures !StartsWithWord(line, word)
  {
    if |word| <= |line| {
      LowerKeepsWord(line[..|word|]);
      assert line[..|word|][0] == line[0];
    }
    hide LowerAll;
  }

  lemma {:induction false} ShortWordDecides(name: string, r: string, word: string)
    requires IsWordText(name) && IsWordText(word) && EndsWord(r) && |word| <= |name|
    ensures StartsWithWord(name + r, word) <==> LowerAll(name) == word
  {
    hide LowerAll;
    var line := name + r;
    assert line[..|word|] == name[..|word|];
    assert name[..|name|] == name;
    assert |word| < |name| ==> line[|word|] == name[|word|];
    assert |word| == |name| && r != "" ==> line[|word|] == r[0];
  }

  lemma {:induction false} LongWordDecides(name: string, r: string, word: string)
    requires IsWordText(word) && EndsWord(r) && |name| < |word|
    ensures !StartsWithWord(name + r, word)
  {
    hide LowerAll;
    var line := name + r;
    if |word| <= |line| {
      LowerKeepsWord(line[..|word|]);
      assert line[|name|] == r[0] && line[..|word|][|name|] == r[0];
    }
  }

  /** A line starts with a whole word exactly when its first name is that word. */
  lemma {:induction false} FirstNameDecides(name: string, r: string, word: string)
    requires IsName(name) && EndsWord(r) && IsWordText(word)
    ensures StartsWithWord(name + r, word) <==> IsPlain(name) && LowerAll(name) == word
  {
    hide IsName, IsPlain, IsWordText, IsWordChar, EndsWord, StartsWithWord, LowerAll;
    NameStarts(name);
    if !IsPlain(name) {
      assert (name + r)[0] == name[0];
      QuoteIsNoWord(name + r, word);
    } else if |word| <= |name| {
      ShortWordDecides(name, r, word);
    } else {
      LongWordDecides(name, r, word);
      assert |LowerAll(name)| == |name|;
    }
  }

  predicate IsIgnoredWord(word: string) {
    word == "project" || word == "enum" || word == "tablegroup" || word == "note"
  }

  lemma {:induction false} NotIgnored(name: string, r: string)
    requires IsName(name) && EndsWord(r) && !(IsPlain(name) && IsIgnoredWord(LowerAll(name)))
    ensures !StartsIgnored(name + r)
  {
    hide IsName, LowerAll, StartsWithWord, IsPlain;
    FirstNameDecides(name, r, "project");
    FirstNameDecides(name, r, "enum");
    FirstNameDecides(name, r, "tablegroup");
    FirstNameDecides(name, r, "note");
  }

  predicate IsKeyword(name: string) {
    IsPlain(name) && (IsIgnoredWord(LowerAll(name)) || LowerAll(name) == "ref" || LowerAll(name) == "table")
  }

  /** A line that starts with a printed name that is no keyword is not taken for anything else. */
  lemma {:induction false} NotAKeywordLine(name: string, r: string)
    requires IsName(name) && !IsKeyword(name) && r != "" && IsSpace(r[0])
    ensures !StartsIgnored(name + r) && TableHeader(name + r).None? && !StartsWithWord(name + r, "ref")
  {
    hide IsName, LowerAll, TableName, TailOk, SplitTableName, StartsIgnored, IsPlain;
    NotIgnored(name, r);
    FirstNameDecides(name, r, "ref");
    FirstNameDecides(name, r, "table");
  }

  function HeaderLine(schema: string, table: string): string {
    "Table " + (schema + "." + table) + " {"
  }

  lemma {:induction false} SplitDotted(schema: string, table: string)
    requires '.' !in schema && '.' !in table
    ensures Split(schema + "." + table, '.') == [schema, table]
  {
    var all := schema + "." + table;
    if schema == "" {
      assert all[1..] == table && all[0] == '.';
      SplitWhole(table, '.');
    } else {
      assert all[1..] == schema[1..] + "." + table && all[0] == schema[0];
      SplitDotted(schema[1..], table);
      assert [schema[0]] + schema[1..] == schema;
    }
  }

  lemma {:induction false} TitleSplits(schema: string, table: string)
    requires IsPlain(schema) && IsPlain(table)
    ensures SplitTableName(schema + "." + table) == (schema, table)
  {
    var raw := schema + "." + table;
    assert raw[0] == schema[0] && raw[|raw| - 1] == table[|table| - 1];
    StripEnds(raw, IsSpace);
    StripEnds(raw, IsQuote);
    assert raw[|schema|] == '.' && raw[|schema| + 1..] == table;
    assert raw == schema + ("." + table);
    SpanStops(schema, "." + table, IsNotDot);
    StripEnds(schema, IsQuote);
    StripEnds(table, IsQuote);
  }

  lemma {:induction false} TailBrace()
    ensures TailOk(" {")
  {
    assert " {"[1..] == "{";
  }

  lemma {:induction false} TitleReads(schema: string, table: string)
    requires IsPlain(schema) && IsPlain(table)
    ensures TableName(schema + "." + table + " {") == Found(schema + "." + table, " {")
  {
    var raw := schema + "." + table;
    SpanStops(raw, " {", IsTableNameChar);
    SplitDotted(schema, table);
    assert (raw + " {")[0] == raw[0] == schema[0];
    assert (raw + " {")[|raw|..] == " {";
  }

  lemma {:induction false} HeaderReads(schema: string, table: string)
    requires IsPlain(schema) && IsPlain(table)
    ensures TableHeader(HeaderLine(schema, table)) == Some((schema, table))
    ensures !StartsIgnored(HeaderLine(schema, table))
  {
    var line := HeaderLine(schema, table);
    var raw := schema + "." + table;
    assert line[..5] == "Table" && line[5] == ' ';
    assert line[6..] == raw + " {";
    assert line[5..][1..] == line[6..];
    assert raw[0] == schema[0];
    assert StripLeft(line[5..], IsSpace) == raw + " {";
    assert LowerAll("Table") == "table";
    TitleReads(schema, table);
    TitleSplits(schema, table);
    TailBrace();
    NotIgnoredHeader(line);
    hide StartsIgnored, TailOk, SplitTableName, TableName;
  }

  lemma {:induction false} NotIgnoredHeader(line: string)
    requires |line| >= 6 && line[..5] == "Table" && line[5] == ' '
    ensures !StartsIgnored(line)
  {
    assert line[0] == line[..5][0] == 'T';
    assert IsName("Table");
    assert line == "Table" + line[5..];
    assert LowerAll("Table") == "table";
    hide IsName, LowerAll, StartsIgnored;
    NotIgnored("Table", line[5..]);
  }

  /** A column as it is printed, without its indent; the settings are bracketed, or absent when empty. */
  function ColumnText(name: string, dataType: string, settings: string): string {
    name + (" " + (dataType + if settings == "" then "" else " [" + settings + "]"))
  }

  lemma {:induction false} SettingsRead(settings: string)
    ensures Settings(if settings == "" then "" else " [" + settings + "]") == Some(settings)
  {
    if settings != "" {
      var tail := " [" + settings + "]";
      var s := "[" + settings + "]";
      assert tail[1..] == s && s[0] == '[' && s[|s| - 1] == ']';
      StripEnds(s, IsSpace);
      assert StripLeft(tail, IsSpace) == s;
      assert s[1..|s| - 1] == settings;
    }
  }

  lemma {:induction false} SkipBlank(s: string)
    requires s != "" && !IsSpace(s[0])
    ensures StripLeft(" " + s, IsSpace) == s
  {
    assert (" " + s)[1..] == s;
  }

  /** A type that the reader takes as one: a word, perhaps with arguments, perhaps an array. */
  predicate IsType(t: string) {
    var word := Span(t, IsWordChar);
    var arguments := TypeArguments(t[|word|..]);
    var rest := t[|word|..][|arguments|..];
    word != "" && (rest == "" || rest == "[]")
  }

  predicate NoMark(r: string) {
    r == "" || (!IsWordChar(r[0]) && r[0] != '(')
  }

  lemma {:induction false} InParentheses(inside: string, r: string)
    requires forall k :: 0 <= k < |inside| ==> IsNotClosing(inside[k])
    ensures TypeArguments("(" + inside + ")" + r) == "(" + inside + ")"
  {
    var a := "(" + inside + ")";
    assert (a + r)[1..] == inside + (")" + r);
    SpanStops(inside, ")" + r, IsNotClosing);
    hide Span;
    assert (a + r)[..|inside| + 2] == a;
  }

  lemma {:induction false} ArgumentsForm(s: string) returns (inside: string)
    requires TypeArguments(s) != ""
    ensures (forall k :: 0 <= k < |inside| ==> IsNotClosing(inside[k])) && TypeArguments(s) == "(" + inside + ")"
  {
    inside := Span(s[1..], IsNotClosing);
    SpanKeeps(s[1..], IsNotClosing);
    SpanEnds(s[1..], IsNotClosing);
    hide Span;
  }

  /** Arguments end at their closing parenthesis, whatever follows. */
  lemma {:induction false} ArgumentsStop(s: string, r: string)
    requires TypeArguments(s) != "" || NoMark(r)
    ensures TypeArguments(TypeArguments(s) + r) == TypeArguments(s)
  {
    if TypeArguments(s) != "" {
      var inside := ArgumentsForm(s);
      InParentheses(inside, r);
      hide TypeArguments;
    } else {
      assert "" + r == r;
    }
  }

  /** A word, arguments as they are found behind one, and a rest that continues neither. */
  lemma {:induction false} TypeSplits(word: string, s: string, r: string)
    requires IsWordText(word) && NoMark(r)
    ensures var t := word + (TypeArguments(s) + r);
      && Span(t, IsWordChar) == word && t[|word|..] == TypeArguments(s) + r
      && TypeArguments(t[|word|..]) == TypeArguments(s) && t[|word|..][|TypeArguments(s)|..] == r
  {
    var a := TypeArguments(s);
    assert a != "" ==> a[0] == '(';
    var u := a + r;
    assert u == "" || !IsWordChar(u[0]);
    SpanStops(word, u, IsWordChar);
    assert (word + u)[|word|..] == u && u[|a|..] == r;
    ArgumentsStop(s, r);
  }

  /** The word of a type, its arguments, and `[]` for an array. */
  lemma {:induction false} TypePieces(t: string) returns (word: string, s: string, rest: string)
    requires IsType(t)
    ensures IsWordText(word) && (rest == "" || rest == "[]") && t == word + (TypeArguments(s) + rest)
  {
    word := Span(t, IsWordChar);
    SpanKeeps(t, IsWordChar);
    s := t[|word|..];
    rest := s[|TypeArguments(s)|..];
    ArgumentsLead(s);
    hide Span, TypeArguments;
  }

  lemma {:induction false} ReadsPieces(t: string, word: string, a: string, tail: string)
    requires Span(t, IsWordChar) == word != "" && TypeArguments(t[|word|..]) == a && t[|word|..][|a|..] == tail
    ensures TypeAndSettings(t) ==
      if |tail| >= 2 && tail[..2] == "[]" && Settings(tail[2..]).Some? then
        Some((word + a + "[]", Settings(tail[2..]).value))
      else if Settings(tail).Some? then Some((word + a, Settings(tail).value)) else None
  {
    hide Span, TypeArguments, Settings;
  }

  lemma {:induction false} TypeReads(dataType: string, tail: string, settings: string)
    requires IsType(dataType) && (tail == "" || tail[0] == ' ') && Settings(tail) == Some(settings)
    ensures TypeAndSettings(dataType + tail) == Some((dataType, settings))
  {
    hide Settings, TypeArguments, IsType, Span, IsWordText, TypeAndSettings, IsWordChar;
    var word, s, rest := TypePieces(dataType);
    var a := TypeArguments(s);
    Regroup(word, a, rest, tail);
    TailIsNoMark(rest, tail);
    TypeSplits(word, s, rest + tail);
    assert word != "" by { WordTextIsNotEmpty(word); }
    ReadsPieces(dataType + tail, word, a, rest + tail);
    if rest == "[]" {
      assert (rest + tail)[..2] == "[]" && (rest + tail)[2..] == tail;
      assert word + (a + "[]") == word + a + "[]";
    } else {
      assert rest + tail == tail && a + rest == a;
      assert |tail| >= 2 ==> tail[..2][0] == ' ' && "[]"[0] == '[';
    }
  }

  lemma {:induction false} Regroup(word: string, a: string, rest: string, tail: string)
    ensures word + (a + rest) + tail == word + (a + (rest + tail))
  {
  }

  lemma {:induction false} TailIsNoMark(rest: string, tail: string)
    requires (rest == "" || rest == "[]") && (tail == "" || tail[0] == ' ')
    ensures NoMark(rest + tail)
  {
    assert rest == "" ==> rest + tail == tail;
  }

  lemma {:induction false} WordTextIsNotEmpty(word: string)
    requires IsWordText(word)
    ensures word != ""
  {
  }

  lemma {:induction false} ArgumentsLead(s: string)
    ensures s == TypeArguments(s) + s[|TypeArguments(s)|..]
  {
  }

  /** Whatever is read as a type is one. */
  lemma {:induction false} OnlyTypes(s: string)
    requires TypeAndSettings(s).Some?
    ensures IsType(TypeAndSettings(s).value.0)
  {
    hide Settings, TypeArguments;
    var word := Span(s, IsWordChar);
    SpanKeeps(s, IsWordChar);
    var a := TypeArguments(s[|word|..]);
    TypeSplits(word, s[|word|..], "");
    TypeSplits(word, s[|word|..], "[]");
    assert a + "" == a && word + a + "[]" == word + (a + "[]");
  }

  lemma {:induction false} ColumnParts(line: string, name: string, rest: string, s: string, dataType: string,
    settings: string)
    requires Segment(line) == Found(name, rest) && StripLeft(rest, IsSpace) == s && |s| < |rest|
    requires TypeAndSettings(s) == Some((dataType, settings))
    ensures ColumnOf(line) == Some(ColumnLine(Strip(name, IsQuote), dataType, settings))
  {
    hide Segment, StripLeft, TypeAndSettings, Strip;
  }

  lemma {:induction false} ColumnReads(name: string, dataType: string, settings: string)
    requires IsName(name) && IsType(dataType)
    ensures ColumnOf(ColumnText(name, dataType, settings)) == Some(ColumnLine(Bare(name), dataType, settings))
  {
    hide Segment, IsName, Strip, Settings, Bare, TypeAndSettings, StripLeft, ColumnOf;
    var tail := if settings == "" then "" else " [" + settings + "]";
    var s := dataType + tail;
    SettingsRead(settings);
    TypeReads(dataType, tail, settings);
    assert s[0] == dataType[0];
    SkipBlank(s);
    SegmentReads(name, " " + s);
    StripBare(name);
    ColumnParts(ColumnText(name, dataType, settings), name, " " + s, s, dataType, settings);
  }

  lemma {:induction false} ColumnTypeIs(line: string)
    requires ColumnOf(line).Some?
    ensures IsType(ColumnOf(line).value.dataType)
  {
    hide Segment, TypeAndSettings, Strip, StripLeft, IsType;
    OnlyTypes(StripLeft(Segment(line).rest, IsSpace));
  }

  /** A column is read back with its type exactly when the type is of that form. */
  lemma {:induction false} ColumnReadsIff(name: string, dataType: string, settings: string)
    requires IsName(name)
    ensures ColumnOf(ColumnText(name, dataType, settings)) == Some(ColumnLine(Bare(name), dataType, settings)) <==>
      IsType(dataType)
  {
    hide ColumnOf, ColumnText, IsType, IsName, Bare;
    if IsType(dataType) {
      ColumnReads(name, dataType, settings);
    } else if ColumnOf(ColumnText(name, dataType, settings)).Some? {
      ColumnTypeIs(ColumnText(name, dataType, settings));
    }
  }

  lemma {:induction false} NotSettings(tail: string)
    requires tail != "" && !IsSpace(tail[0]) && tail[0] != '['
    ensures Settings(" " + tail) == None
  {
    SkipBlank(tail);
    StripRightKeeps(tail);
  }

  lemma {:induction false} StripRightKeeps(s: string)
    requires s != "" && !IsSpace(s[0])
    ensures StripRight(s, IsSpace) != "" && StripRight(s, IsSpace)[0] == s[0]
  {
    if IsSpace(s[|s| - 1]) {
      StripRightKeeps(s[..|s| - 1]);
    }
  }

  /** A column whose type has several words is not read at all. */
  lemma {:induction false} MultiWordIsLost(name: string, word: string, more: string, settings: string)
    requires IsName(name) && IsWordText(word) && more != "" && !IsSpace(more[0]) && more[0] != '['
    ensures ColumnOf(ColumnText(name, word + " " + more, settings)) == None
  {
    hide Segment, IsName, Settings, TypeAndSettings, Strip;
    var tail := if settings == "" then "" else " [" + settings + "]";
    var rest := " " + (more + tail);
    var s := word + rest;
    assert word + " " + more + tail == s;
    assert s[0] == word[0] && (more + tail)[0] == more[0];
    SegmentReads(name, " " + s);
    SkipBlank(s);
    SpanStops(word, rest, IsWordChar);
    assert s[|word|..] == rest && rest[|""|..] == rest;
    NotSettings(more + tail);
    ReadsPieces(s, word, "", rest);
    assert |rest| >= 2 ==> rest[..2][0] == ' ' && "[]"[0] == '[';
  }

  /** A reference as it is printed. */
  function RefLine(source: string, target: string): string {
    "Ref: " + (source + (" > " + target))
  }

  lemma {:induction false} SkipsToOperator(target: string)
    requires target != "" && !IsSpace(target[0])
    ensures StripLeft(" > " + target, IsSpace) == "> " + target
    ensures ("> " + target)[1..] == " " + target && StripLeft(" " + target, IsSpace) == target
  {
    hide StripLeft;
    assert " > " + target == " " + ("> " + target);
    SkipBlank("> " + target);
    SkipBlank(target);
    assert ("> " + target)[1..] == " " + target;
  }

  lemma {:induction false} SkipsColon(s: string)
    requires s != "" && !IsSpace(s[0])
    ensures var t := ":" + (" " + s);
      StripLeft(t, IsSpace) == t && t[0] == ':' && t[1..] == " " + s && StripLeft(" " + s, IsSpace) == s
  {
    assert (":" + (" " + s))[1..] == " " + s;
    SkipBlank(s);
  }

  /** A colon, a written path, an operator and a written path. */
  lemma {:induction false} ComparisonReads(s1: string, t1: string, c1: string, s2: string, t2: string, c2: string)
    requires IsPlain(s1) && IsName(t1) && IsName(c1) && IsPlain(s2) && IsName(t2) && IsName(c2)
    ensures var source, target := Dotted(s1, t1, c1), Dotted(s2, t2, c2);
      Comparison(": " + (source + (" > " + target))) == Some(Reference(source, '>', target))
  {
    hide Path, StripLeft, IsName, Dotted, IsPlain;
    var source, target := Dotted(s1, t1, c1), Dotted(s2, t2, c2);
    var s := source + (" > " + target);
    DottedStart(s1, t1, c1);
    DottedStart(s2, t2, c2);
    DottedReads(s1, t1, c1, " > " + target);
    DottedReads(s2, t2, c2, "");
    assert target + "" == target && s[0] == source[0];
    SkipsColon(s);
    SkipsToOperator(target);
    assert ": " + s == ":" + (" " + s);
    assert ("> " + target)[0] == '>';
  }

  lemma {:induction false} DottedStart(schema: string, table: string, column: string)
    requires IsPlain(schema)
    ensures IsName(schema) && Dotted(schema, table, column) != "" && !IsSpace(Dotted(schema, table, column)[0])
  {
    assert Dotted(schema, table, column)[0] == schema[0];
  }

  /** A printed reference line is seen as a reference. */
  lemma {:induction false} RefSeen(source: string, target: string)
    ensures var line := RefLine(source, target);
      StartsWithWord(line, "ref") && !StartsIgnored(line) && TableHeader(line).None?
  {
    var line := RefLine(source, target);
    var text := ": " + (source + (" > " + target));
    assert line == "Ref" + text && line[3..] == text && line[..3] == "Ref";
    assert LowerAll("Ref") == "ref";
    hide StartsIgnored, TableHeader;
    NotIgnoredRef(text);
  }

  lemma {:induction false} RefReads(source: string, target: string)
    requires Comparison(": " + (source + (" > " + target))) == Some(Reference(source, '>', target))
    ensures FindReference(RefLine(source, target)) == Some(Reference(source, '>', target))
  {
    var line := RefLine(source, target);
    var text := ": " + (source + (" > " + target));
    hide Comparison;
    assert line == "Ref" + text && line[3..] == text && line[..3] == "Ref";
    assert LowerAll("Ref") == "ref";
    assert StripLeft(text, IsSpace) == text && Span(text, IsWordChar) == "" && text[0..] == text;
  }

  lemma {:induction false} NotIgnoredRef(r: string)
    requires r != "" && r[0] == ':'
    ensures !StartsIgnored("Ref" + r) && TableHeader("Ref" + r).None?
  {
    assert IsName("Ref");
    assert LowerAll("Ref") == "ref";
    hide LowerAll, IsName, TableName, TailOk, SplitTableName, StartsIgnored;
    NotIgnored("Ref", r);
    FirstNameDecides("Ref", r, "table");
  }
}
