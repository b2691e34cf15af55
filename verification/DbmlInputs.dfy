/**
 Documents written by hand, as backend/app/spec/dbml_import.py reads them: references in a column's settings and on
 lines of their own, index lists, and blocks to be passed over.
 */
module DbmlInputs {
  import opened Dicts
  import opened Text
  import opened DbmlLines
  import opened Dbml
  import opened DbmlNotes
  import opened DbmlRoundTrip

  // ---------------------------------------------------------------- paths

  /** The text is read as a path wherever it ends, and splits into these names. */
  ghost predicate ReadsAs(path: string, c: ColumnRef) {
    && path != "" && !IsSpace(path[0]) && path[0] != ':' && Calm(path) && !IsSpace(path[|path| - 1])
    && (forall r :: EndsPath(r) ==> Path(path + r) == Found(path, r))
    && SplitColumnRef(path) == c
  }

  predicate EndsPath(r: string) {
    r == "" || (!IsWordChar(r[0]) && r[0] != '.')
  }

  lemma {:induction false} NameEnds(name: string)
    requires IsName(name)
    ensures name != "" && !IsSpace(name[0]) && name[0] != ':' && !IsSpace(name[|name| - 1]) && Calm(name)
  {
  }

  /** schema.table.column, each name plain or quoted. */
  lemma {:induction false} ThreeNames(schema: string, table: string, column: string)
    requires IsName(schema) && IsName(table) && IsName(column)
    ensures ReadsAs(Dotted(schema, table, column), ColumnRef(Bare(schema), Bare(table), Bare(column)))
  {
    NameEnds(schema);
    NameEnds(column);
    NameEnds(table);
    assert Calm(".");
    hide IsName, Bare, Path, SplitColumnRef, Calm;
    var path := Dotted(schema, table, column);
    CalmConcat(table, ".");
    CalmConcat(table + ".", column);
    CalmConcat(schema, ".");
    CalmConcat(schema + ".", table + "." + column);
    assert path == schema + "." + (table + "." + column);
    assert path[0] == schema[0] && path[|path| - 1] == column[|column| - 1];
    forall r | EndsPath(r) ensures Path(path + r) == Found(path, r) {
      DottedReads(schema, table, column, r);
    }
    DottedSplits(schema, table, column);
  }

  lemma {:induction false} TwoParts(table: string, column: string)
    requires IsName(table) && IsName(column)
    ensures Parts(table + "." + column) == [table, column]
  {
    hide IsName, Parts;
    PartsRun(column, "");
    assert column + "" == column;
    NoParts();
    PartsStep(table, column);
    assert [table] + ([column] + []) == [table, column];
  }

  lemma {:induction false} TwoNamesSplit(table: string, column: string)
    requires IsName(table) && IsName(column)
    ensures SplitColumnRef(table + "." + column) == ColumnRef("public", Bare(table), Bare(column))
  {
    NameEnds(table);
    NameEnds(column);
    hide IsName, Bare, Parts, Strip, Calm;
    var path := table + "." + column;
    assert path[0] == table[0] && path[|path| - 1] == column[|column| - 1];
    StripEnds(path, IsSpace);
    TwoParts(table, column);
    StripBare(table);
    StripBare(column);
  }

  lemma {:induction false} TwoNamesRead(table: string, column: string, r: string)
    requires IsName(table) && IsName(column) && EndsPath(r)
    ensures Path(table + "." + column + r) == Found(table + "." + column, r)
  {
    hide IsName, Path;
    PathEnd(column, r);
    PathStep(table, column + r);
    assert table + "." + column + r == table + "." + (column + r);
  }

  /** table.column in the schema `public`. */
  lemma {:induction false} TwoNames(table: string, column: string)
    requires IsName(table) && IsName(column)
    ensures ReadsAs(table + "." + column, ColumnRef("public", Bare(table), Bare(column)))
  {
    assert Calm(".");
    hide IsName, Bare, Path, Calm, SplitColumnRef, IsSpace, EndsPath;
    NameEnds(column);
    NameEnds(table);
    var path := table + "." + column;
    CalmConcat(table, ".");
    CalmConcat(table + ".", column);
    assert path[0] == table[0] && path[|path| - 1] == column[|column| - 1];
    forall r | EndsPath(r) ensures Path(path + r) == Found(path, r) {
      TwoNamesRead(table, column, r);
    }
    TwoNamesSplit(table, column);
  }

  // ---------------------------------------------------------------- a reference on its own line

  /** Ref: source op target */
  function ReferenceText(source: string, op: char, target: string): string {
    "Ref: " + (source + ([' ', op, ' '] + target))
  }

  /** What a reference means: `<` turns it round. */
  function Meant(op: char, from: ColumnRef, to: ColumnRef): FkSpec {
    if op == '<' then FkSpec(to, from) else FkSpec(from, to)
  }

  lemma {:induction false} OperatorFollows(op: char, target: string)
    requires IsOperator(op) && target != "" && !IsSpace(target[0])
    ensures var t := [' ', op, ' '] + target;
      && StripLeft(t, IsSpace) == [op] + (" " + target) && ([op] + (" " + target))[1..] == " " + target
      && StripLeft(" " + target, IsSpace) == target && EndsPath(t)
  {
    hide StripLeft;
    assert [' ', op, ' '] + target == " " + ([op] + (" " + target));
    SkipBlank([op] + (" " + target));
    SkipBlank(target);
  }

  lemma {:induction false} ComparisonOf(source: string, op: char, target: string, from: ColumnRef, to: ColumnRef)
    requires ReadsAs(source, from) && ReadsAs(target, to) && IsOperator(op)
    ensures Comparison(": " + (source + ([' ', op, ' '] + target))) == Some(Reference(source, op, target))
  {
    hide Path, StripLeft, SplitColumnRef, Calm;
    var s := source + ([' ', op, ' '] + target);
    OperatorFollows(op, target);
    assert target + "" == target && EndsPath("") && s[0] == source[0];
    assert Path(target + "") == Found(target, "");
    SkipsColon(s);
    assert ": " + s == ":" + (" " + s);
  }

  lemma {:induction false} RefWord(text: string)
    ensures var line := "Ref" + text; line[3..] == text && line[..3] == "Ref" && LowerAll("Ref") == "ref"
  {
  }

  lemma {:induction false} ReferenceOf(source: string, op: char, target: string)
    requires Comparison(": " + (source + ([' ', op, ' '] + target))) == Some(Reference(source, op, target))
    ensures FindReference(ReferenceText(source, op, target)) == Some(Reference(source, op, target))
  {
    var line, text := ReferenceText(source, op, target), ": " + (source + ([' ', op, ' '] + target));
    hide Comparison;
    assert line == "Ref" + text;
    RefWord(text);
    assert StripLeft(text, IsSpace) == text && Span(text, IsWordChar) == "" && text[0..] == text;
  }

  lemma {:induction false} ReferenceSeen(source: string, op: char, target: string)
    ensures var line := ReferenceText(source, op, target);
      StartsWithWord(line, "ref") && !StartsIgnored(line) && TableHeader(line).None? && line[0] == 'R'
  {
    var line, text := ReferenceText(source, op, target), ": " + (source + ([' ', op, ' '] + target));
    assert line == "Ref" + text;
    RefWord(text);
    hide StartsIgnored, TableHeader;
    NotIgnoredRef(text);
  }

  lemma {:induction false} ReferenceClean(source: string, op: char, target: string)
    requires Calm(source) && Calm(target) && target != "" && !IsSpace(target[|target| - 1]) && IsOperator(op)
    ensures var line := ReferenceText(source, op, target); CleanLine(line) == line && Unbroken(line)
  {
    assert Calm("Ref: ") && Calm([' ', op, ' ']);
    hide Calm;
    var line := ReferenceText(source, op, target);
    CalmConcat([' ', op, ' '], target);
    CalmConcat(source, [' ', op, ' '] + target);
    CalmConcat("Ref: ", source + ([' ', op, ' '] + target));
    assert line[0] == 'R' && line[|line| - 1] == target[|target| - 1];
    CleanText(line);
    CalmLine(line);
  }

  /** Wherever it stands, the line adds the reference it means, if it names two tables. */
  lemma {:induction false} ReferenceLineRead(s: State, source: string, op: char, target: string, from: ColumnRef,
    to: ColumnRef)
    requires Valid(s) && s.ignored == 0 && ReadsAs(source, from) && ReadsAs(target, to) && IsOperator(op)
    requires |ReferenceText(source, op, target)| <= MAX_LINE
    ensures Step(s, ReferenceText(source, op, target)) ==
      if from.table != "" && to.table != "" then s.(specs := s.specs + [Meant(op, from, to)]) else s
  {
    ReferenceClean(source, op, target);
    ReferenceSeen(source, op, target);
    ComparisonOf(source, op, target, from, to);
    hide Comparison, ReferenceText;
    ReferenceOf(source, op, target);
    hide CleanLine, StartsIgnored, TableHeader, StartsWithWord, FindReference, SplitColumnRef, Path, Calm, Valid;
    ReferenceStep(s, ReferenceText(source, op, target));
  }

  // ---------------------------------------------------------------- a reference among a column's settings

  /** ref: op path */
  function InlineText(op: char, path: string): string {
    "ref: " + ([op, ' '] + path)
  }

  lemma {:induction false} InlineFound(op: char, path: string, to: ColumnRef)
    requires IsOperator(op) && ReadsAs(path, to)
    ensures FindInline(InlineText(op, path)) == Some((op, path))
  {
    hide Path, SplitColumnRef, Calm;
    var settings, s := InlineText(op, path), [op] + (" " + path);
    assert settings[..4] == "ref:" && settings[4..] == " " + s;
    assert LowerAll("ref:") == "ref:";
    SkipBlank(s);
    SkipBlank(path);
    assert s[1..] == " " + path;
    assert path + "" == path && EndsPath("");
    assert Path(path + "") == Found(path, "");
  }

  /** What the importer adds for a column with such a setting. */
  function WithInline(s: State, key: TableKey, name: string, kind: string, op: char, path: string, to: ColumnRef): State
    requires key in s.oids
  {
    var settings, oid := LowerAll(InlineText(op, path)), s.oids[key];
    var isPk := SaysPrimaryKey(settings);
    var row := ColumnRow(oid, name, CountOid(s.columns, oid) + 1, kind, isPk || Contains(settings, "not null"),
                         Contains(settings, "default:"));
    s.(
      columns := s.columns + [row],
      pks := if isPk then s.pks + [PkRow(oid, name, |s.pks| + 1)] else s.pks,
      specs := s.specs + [Meant(op, ColumnRef(key.0, key.1, name), to)])
  }

  lemma {:induction false} InlineAdded(s: State, key: TableKey, name: string, kind: string, op: char, path: string,
    to: ColumnRef)
    requires key in s.oids && IsOperator(op) && ReadsAs(path, to)
    ensures AddColumn(s, key, ColumnLine(name, kind, InlineText(op, path))) ==
      WithInline(s, key, name, kind, op, path, to)
  {
    InlineFound(op, path, to);
    assert SplitColumnRef(path) == to;
    hide FindInline, SplitColumnRef, SaysPrimaryKey, Contains, LowerAll, CountOid, InlineText, ReadsAs;
  }

  lemma {:induction false} InlineCalm(kind: string, op: char, path: string)
    requires IsType(kind) && Calm(kind) && IsOperator(op) && Calm(path) && path != ""
    ensures var t := kind + (" [" + InlineText(op, path) + "]");
      Calm(t) && t != "" && IsWordChar(t[0]) && !IsSpace(t[|t| - 1])
  {
    hide Calm, IsType, InlineText;
    TypeEnds(kind);
    InlineTextCalm(op, path);
    InBrackets(kind, InlineText(op, path));
  }

  lemma {:induction false} InlineTextCalm(op: char, path: string)
    requires IsOperator(op) && Calm(path)
    ensures Calm(InlineText(op, path))
  {
    assert Calm("ref: ") && Calm([op, ' ']);
    hide Calm;
    CalmConcat([op, ' '], path);
    CalmConcat("ref: ", [op, ' '] + path);
  }

  lemma {:induction false} InBrackets(kind: string, text: string)
    requires kind != "" && Calm(kind) && Calm(text)
    ensures var t := kind + (" [" + text + "]");
      Calm(t) && t[0] == kind[0] && t[|t| - 1] == ']'
  {
    assert Calm(" [") && Calm("]");
    hide Calm;
    CalmConcat(" [", text);
    CalmConcat(" [" + text, "]");
    CalmConcat(kind, " [" + text + "]");
  }

  /** A column line with a reference adds the column and the reference. */
  lemma {:induction false} InlineColumnRead(s: State, key: TableKey, name: string, kind: string, op: char,
    path: string, to: ColumnRef)
    requires Valid(s) && s.ignored == 0 && !s.inIndexes && s.current == Some(key)
    requires IsName(name) && !IsKeyword(name) && IsType(kind) && Calm(kind) && IsOperator(op) && ReadsAs(path, to)
    requires |DbmlLines.ColumnText(name, kind, InlineText(op, path))| + 2 <= MAX_LINE
    ensures Step(s, "  " + DbmlLines.ColumnText(name, kind, InlineText(op, path))) ==
      WithInline(s, key, Bare(name), kind, op, path, to)
  {
    var line := DbmlLines.ColumnText(name, kind, InlineText(op, path));
    InlineCalm(kind, op, path);
    InlineAdded(s, key, Bare(name), kind, op, path, to);
    var t := kind + (" [" + InlineText(op, path) + "]");
    assert line == name + (" " + t);
    hide IsName, IsKeyword, IsType, Calm, ReadsAs, CleanLine, StartsIgnored, TableHeader, StartsIndexes, ColumnOf,
      AddColumn, AddReference, WithInline, StartsWithWord, EnterTable, Bare, InlineText;
    ColumnLineSeen(name, t);
    ColumnReads(name, kind, InlineText(op, path));
  }

  // ---------------------------------------------------------------- what such a setting says besides

  lemma {:induction false} LowerConcat(a: string, b: string)
    ensures LowerAll(a + b) == LowerAll(a) + LowerAll(b)
  {
    var all := a + b;
    assert forall k :: 0 <= k < |a| ==> all[k] == a[k];
    assert forall k :: 0 <= k < |b| ==> all[|a| + k] == b[k];
  }

  /** The lower-cased setting, character by character. */
  ghost predicate IsInlineText(s: string, op: char, t: string, d: string) {
    && |s| == 8 + |t| + |d| && IsOperator(op) && IsWordText(t) && IsWordText(d)
    && s[0] == 'r' && s[1] == 'e' && s[2] == 'f' && s[3] == ':' && s[4] == ' ' && s[5] == op && s[6] == ' '
    && (forall k :: 7 <= k < 7 + |t| ==> s[k] == t[k - 7] && IsWordChar(s[k])) && s[7 + |t|] == '.'
    && forall k :: 8 + |t| <= k < |s| ==> s[k] == d[k - 8 - |t|] && IsWordChar(s[k])
  }

  lemma {:induction false} LowerIsWord(w: string)
    requires IsPlain(w)
    ensures IsWordText(LowerAll(w))
  {
    LowerKeepsWord(w);
    hide LowerAll;
  }

  lemma {:induction false} HeadIsLower(op: char)
    requires IsOperator(op)
    ensures var head := ['r', 'e', 'f', ':', ' ', op, ' ']; LowerAll(head) == head && LowerAll(".") == "."
  {
    var head := ['r', 'e', 'f', ':', ' ', op, ' '];
    assert forall k :: 0 <= k < |head| ==> Lower(head[k]) == head[k];
    assert LowerAll(head) == head;
  }

  lemma {:induction false} ShapeOf(op: char, t: string, d: string)
    requires IsOperator(op) && IsWordText(t) && IsWordText(d)
    ensures IsInlineText(['r', 'e', 'f', ':', ' ', op, ' '] + (t + ("." + d)), op, t, d)
  {
    hide IsWordChar;
    var s := ['r', 'e', 'f', ':', ' ', op, ' '] + (t + ("." + d));
    forall k | 7 <= k < 7 + |t| ensures s[k] == t[k - 7] {
    }
    forall k | 8 + |t| <= k < |s| ensures s[k] == d[k - 8 - |t|] {
    }
  }

  lemma {:induction false} LowerInline(op: char, table: string, column: string)
    requires IsOperator(op) && IsPlain(table) && IsPlain(column)
    ensures IsInlineText(LowerAll(InlineText(op, table + "." + column)), op, LowerAll(table), LowerAll(column))
  {
    hide LowerAll, IsInlineText, IsPlain, IsWordText;
    LowerIsWord(table);
    LowerIsWord(column);
    HeadIsLower(op);
    ShapeOf(op, LowerAll(table), LowerAll(column));
    var head := ['r', 'e', 'f', ':', ' ', op, ' '];
    assert InlineText(op, table + "." + column) == head + (table + ("." + column));
    LowerConcat(head, table + ("." + column));
    LowerConcat(table, "." + column);
    LowerConcat(".", column);
  }

  /** Blanks stand where no two words meet, and the colon where nothing could be set to a value. */
  lemma {:induction false} InlineSaysNothing(s: string, op: char, t: string, d: string)
    requires IsInlineText(s, op, t, d)
    ensures !Contains(s, "not null") && !Contains(s, "default:")
  {
    var required, preset := "not null", "default:";
    assert |required| == 8 && required[0] == 'n' && required[3] == ' ' && |preset| == 8 && preset[7] == ':';
    forall k ensures !OccursAt(s, required, k) && !OccursAt(s, preset, k) {
      if 0 <= k <= |s| - 8 {
        var u := s[k..k + 8];
        assert u[0] == s[k] && u[3] == s[k + 3] && u[7] == s[k + 7];
      }
    }
  }

  lemma {:induction false} NoPrimary(s: string, op: char, t: string, d: string, k: nat)
    requires IsInlineText(s, op, t, d) && k <= |s|
    ensures !PrimaryKeyAt(s, k)
  {
    if k + 7 < |s| && OccursAt(s, "primary", k) {
      assert s[k..k + 7][0] == s[k] == 'p';
      assert s[k + 7..][0] == s[k + 7] && !IsSpace(s[k + 7]);
    }
  }

  lemma {:induction false} PkInside(s: string, op: char, t: string, d: string, k: nat)
    requires IsInlineText(s, op, t, d) && k <= |s|
    ensures WordAt(s, "pk", k) <==> (k == 7 && t == "pk") || (k == 8 + |t| && d == "pk")
  {
    if k + 2 <= |s| {
      assert s[k..k + 2] == [s[k], s[k + 1]] && "pk" == ['p', 'k'];
      if k == 7 {
        PkStarts(s, 7, t);
      } else if k == 8 + |t| {
        PkStarts(s, 8 + |t|, d);
      } else if 7 < k {
        assert k != 7 + |t| ==> IsWordChar(s[k - 1]);
      }
    }
  }

  /** At the start of a word, it is `pk` exactly if the word is. */
  lemma {:induction false} PkStarts(s: string, k: nat, w: string)
    requires k > 0 && IsWordText(w) && k + |w| <= |s| && !IsWordChar(s[k - 1])
    requires (forall i :: 0 <= i < |w| ==> s[k + i] == w[i]) && (k + |w| == |s| || !IsWordChar(s[k + |w|]))
    ensures WordAt(s, "pk", k) <==> w == "pk"
  {
    if k + 2 <= |s| {
      assert s[k..k + 2] == [s[k], s[k + 1]] && "pk" == ['p', 'k'];
      if |w| > 2 {
        assert IsWordChar(w[2]) && s[k + 2] == w[2];
      }
    }
  }

  /** The column becomes a primary key exactly if the table or the column referred to is called pk. */
  lemma {:induction false} InlineFlags(op: char, table: string, column: string)
    requires IsOperator(op) && IsPlain(table) && IsPlain(column)
    ensures var settings := LowerAll(InlineText(op, table + "." + column));
      && (SaysPrimaryKey(settings) <==> LowerAll(table) == "pk" || LowerAll(column) == "pk")
      && !Contains(settings, "not null") && !Contains(settings, "default:")
  {
    hide LowerAll, IsInlineText, PrimaryKeyAt, WordAt, Contains;
    var s, t, d := LowerAll(InlineText(op, table + "." + column)), LowerAll(table), LowerAll(column);
    LowerInline(op, table, column);
    InlineSaysNothing(s, op, t, d);
    InlineLength(s, op, t, d);
    forall k: nat | k <= |s| ensures !PrimaryKeyAt(s, k)
      && (WordAt(s, "pk", k) <==> (k == 7 && t == "pk") || (k == 8 + |t| && d == "pk"))
    {
      NoPrimary(s, op, t, d, k);
      PkInside(s, op, t, d, k);
    }
    assert (t == "pk" ==> WordAt(s, "pk", 7)) && (d == "pk" ==> WordAt(s, "pk", 8 + |t|));
  }

  lemma {:induction false} InlineLength(s: string, op: char, t: string, d: string)
    requires IsInlineText(s, op, t, d)
    ensures |s| == 8 + |t| + |d|
  {
  }

  // ---------------------------------------------------------------- documents with references

  /** A reference as it is written, and what its paths name. */
  datatype Written = Written(source: string, op: char, target: string, from: ColumnRef, to: ColumnRef) {
    ghost predicate Ok() {
      && IsOperator(op) && ReadsAs(source, from) && ReadsAs(target, to) && from.table != "" && to.table != ""
      && |Line()| <= MAX_LINE
    }

    function Line(): string {
      ReferenceText(source, op, target)
    }

    function Spec(): FkSpec {
      Meant(op, from, to)
    }
  }

  function LinesFor(refs: seq<Written>): (lines: seq<string>)
    ensures |lines| == |refs| && forall k :: 0 <= k < |refs| ==> lines[k] == refs[k].Line()
  {
    seq(|refs|, k requires 0 <= k < |refs| => refs[k].Line())
  }

  function SpecsFor(refs: seq<Written>): (specs: seq<FkSpec>)
    ensures |specs| == |refs| && forall k :: 0 <= k < |refs| ==> specs[k] == refs[k].Spec()
  {
    seq(|refs|, k requires 0 <= k < |refs| => refs[k].Spec())
  }

  ghost predicate AllOk(refs: seq<Written>) {
    forall k :: 0 <= k < |refs| ==> refs[k].Ok()
  }

  lemma {:induction false} ReferencesRun(s: State, refs: seq<Written>)
    requires Valid(s) && s.ignored == 0 && AllOk(refs)
    ensures Run(s, LinesFor(refs)) == s.(specs := s.specs + SpecsFor(refs))
  {
    hide Step, ReadsAs, ReferenceText, Meant, Valid;
    if refs == [] {
      assert s.specs + SpecsFor([]) == s.specs;
    } else {
      var n := |refs| - 1;
      var r := refs[n];
      ReferencesRun(s, refs[..n]);
      assert LinesFor(refs) == LinesFor(refs[..n]) + [r.Line()] && SpecsFor(refs) == SpecsFor(refs[..n]) + [r.Spec()];
      RunOne(s, LinesFor(refs[..n]), r.Line());
      var t := Run(s, LinesFor(refs[..n]));
      assert r.Ok();
      ReferenceLineRead(t, r.source, r.op, r.target, r.from, r.to);
      assert t.specs + [r.Spec()] == s.specs + (SpecsFor(refs[..n]) + [r.Spec()]);
    }
  }

  lemma {:induction false} ReferencesUnbroken(refs: seq<Written>)
    requires AllOk(refs)
    ensures AllUnbroken(LinesFor(refs))
  {
    hide ReferenceText, CleanLine, Calm, Path, SplitColumnRef, Unbroken;
    forall k | 0 <= k < |refs| ensures Unbroken(LinesFor(refs)[k]) {
      assert refs[k].Ok();
      ReferenceClean(refs[k].source, refs[k].op, refs[k].target);
    }
  }

  /** Reading joined lines is running over them. */
  lemma {:induction false} ParseJoined(lines: seq<string>)
    requires AllUnbroken(lines)
    ensures Parse(Cat(lines)) == Finish(Run(START, lines))
  {
    hide Run, Lines, Cat, Step;
    LinesOfCat(lines, "");
    assert Cat(lines) + "" == Cat(lines);
    assert Lines("") == [""] by { NoText(); }
    RunOne(START, lines, "");
    BlankStep(Run(START, lines));
  }

  lemma {:induction false} NoText()
    ensures Lines("") == [""]
  {
  }

  /** The number of a table is its place among the tables of the document, counted from one. */
  ghost predicate Numbered(titles: seq<Title>, c: ColumnRef, oid: nat) {
    1 <= oid <= |titles| && titles[oid - 1] == Title(c.schema, c.table)
  }

  /** The row for the n-th reference: it goes from the referencing to the referenced column. */
  ghost predicate RowFor(titles: seq<Title>, specs: seq<FkSpec>, n: nat, row: FkRow) {
    && n < |specs| && row.oid == 100000 + n + 1
    && row.name == "fk_" + specs[n].child.table + "_" + specs[n].child.column
    && Numbered(titles, specs[n].child, row.child) && Numbered(titles, specs[n].parent, row.parent)
    && row.childColumn == specs[n].child.column && row.parentColumn == specs[n].parent.column
  }

  lemma {:induction false} NumberIff(titles: seq<Title>, c: ColumnRef, oid: nat)
    requires forall a, b :: 0 <= a < b < |titles| ==> titles[a] != titles[b]
    ensures (c.schema, c.table) in Oids(titles) && Oids(titles)[(c.schema, c.table)] == oid <==>
      Numbered(titles, c, oid)
  {
    OidsKnow(titles, (c.schema, c.table));
    if i :| 0 <= i < |titles| && titles[i] == Title(c.schema, c.table) {
      OidsNumber(titles, i);
    }
    hide Oids;
  }

  /** The foreign keys are exactly the rows of the references between tables of the document, in order. */
  lemma {:induction false} RowsIff(titles: seq<Title>, specs: seq<FkSpec>, n: nat, row: FkRow)
    requires n <= |specs| && forall a, b :: 0 <= a < b < |titles| ==> titles[a] != titles[b]
    ensures row in FkRows(specs, Oids(titles), n) <==> exists k: nat :: k < n && RowFor(titles, specs, k, row)
  {
    hide Oids;
    if n > 0 {
      RowsIff(titles, specs, n - 1, row);
      NumberIff(titles, specs[n - 1].child, row.child);
      NumberIff(titles, specs[n - 1].parent, row.parent);
      LastRowIff(titles, specs, n, row);
    }
  }

  lemma {:induction false} LastRowIff(titles: seq<Title>, specs: seq<FkSpec>, n: nat, row: FkRow)
    requires 0 < n <= |specs| && forall a, b :: 0 <= a < b < |titles| ==> titles[a] != titles[b]
    ensures row in FkRows(specs, Oids(titles), n) <==>
      row in FkRows(specs, Oids(titles), n - 1) || RowFor(titles, specs, n - 1, row)
  {
    var child, parent := specs[n - 1].child, specs[n - 1].parent;
    NumberIff(titles, child, row.child);
    NumberIff(titles, parent, row.parent);
    forall oid: nat ensures
      (child.schema, child.table) in Oids(titles) && Oids(titles)[(child.schema, child.table)] == oid
      <==> Numbered(titles, child, oid)
    {
      NumberIff(titles, child, oid);
    }
    forall oid: nat ensures
      (parent.schema, parent.table) in Oids(titles) && Oids(titles)[(parent.schema, parent.table)] == oid
      <==> Numbered(titles, parent, oid)
    {
      NumberIff(titles, parent, oid);
    }
    hide Oids, Numbered;
    var before := FkRows(specs, Oids(titles), n - 1);
    assert FkRows(specs, Oids(titles), n) == before || exists last ::
      FkRows(specs, Oids(titles), n) == before + [last];
  }

  lemma {:induction false} RowsAscend(specs: seq<FkSpec>, oids: map<TableKey, nat>, n: nat)
    requires n <= |specs|
    ensures forall i :: 0 <= i < |FkRows(specs, oids, n)| ==> FkRows(specs, oids, n)[i].oid <= 100000 + n
    ensures forall i, j :: 0 <= i < j < |FkRows(specs, oids, n)| ==>
      FkRows(specs, oids, n)[i].oid < FkRows(specs, oids, n)[j].oid
  {
    if n > 0 {
      RowsAscend(specs, oids, n - 1);
    }
  }

  /** Where a reference leads from: `<` turns it round. */
  function ChildOf(op: char, from: ColumnRef, to: ColumnRef): ColumnRef {
    if op == '<' then to else from
  }

  function ParentOf(op: char, from: ColumnRef, to: ColumnRef): ColumnRef {
    if op == '<' then from else to
  }

  /** The row for the k-th of the references. */
  ghost predicate RowOfReference(titles: seq<Title>, refs: seq<Written>, k: nat, row: FkRow) {
    && k < |refs|
    && var child, parent :=
      if refs[k].op == '<' then refs[k].to else refs[k].from, if refs[k].op == '<' then refs[k].from else refs[k].to;
    && row.oid == 100000 + k + 1 && row.name == "fk_" + child.table + "_" + child.column
    && Numbered(titles, child, row.child) && row.childColumn == child.column
    && Numbered(titles, parent, row.parent) && row.parentColumn == parent.column
  }

  lemma {:induction false} RowOfReferenceIff(titles: seq<Title>, refs: seq<Written>, k: nat, row: FkRow)
    ensures RowFor(titles, SpecsFor(refs), k, row) <==> RowOfReference(titles, refs, k, row)
  {
    hide Numbered;
    if k < |refs| {
      assert SpecsFor(refs)[k] == refs[k].Spec();
    }
  }

  ghost predicate OidsAscend(fks: seq<FkRow>) {
    forall i, j :: 0 <= i < j < |fks| ==> fks[i].oid < fks[j].oid
  }

  ghost predicate RowsFor(titles: seq<Title>, refs: seq<Written>, fks: seq<FkRow>) {
    forall row :: row in fks <==> exists k: nat :: RowOfReference(titles, refs, k, row)
  }

  /** What a document with these tables and references is read as. */
  ghost predicate ReadWith(p: Snapshot, nodes: seq<Node>, titles: seq<Title>, refs: seq<Written>) {
    && p.relations == Relations(titles) && p.columns == AllRows(nodes) && p.pks == AllKeys(nodes)
    && RowsFor(titles, refs, p.fks) && OidsAscend(p.fks)
  }

  lemma {:induction false} FkRowsOf(titles: seq<Title>, refs: seq<Written>)
    requires forall a, b :: 0 <= a < b < |titles| ==> titles[a] != titles[b]
    ensures RowsFor(titles, refs, FkRows(SpecsFor(refs), Oids(titles), |refs|))
    ensures OidsAscend(FkRows(SpecsFor(refs), Oids(titles), |refs|))
  {
    RowsAscend(SpecsFor(refs), Oids(titles), |refs|);
    hide Oids, RowOfReference, FkRows;
    var fks := FkRows(SpecsFor(refs), Oids(titles), |refs|);
    assert RowsFor(titles, refs, fks) by {
      hide OidsAscend;
      forall row ensures row in fks <==> exists k: nat :: RowOfReference(titles, refs, k, row) {
        FkRowIff(titles, refs, row);
      }
    }
  }

  lemma {:induction false} FkRowIff(titles: seq<Title>, refs: seq<Written>, row: FkRow)
    requires forall a, b :: 0 <= a < b < |titles| ==> titles[a] != titles[b]
    ensures row in FkRows(SpecsFor(refs), Oids(titles), |refs|) <==>
      exists k: nat :: RowOfReference(titles, refs, k, row)
  {
    hide Oids, RowFor, RowOfReference, FkRows;
    RowsIff(titles, SpecsFor(refs), |refs|, row);
    forall k: nat ensures k < |refs| && RowFor(titles, SpecsFor(refs), k, row) <==>
      RowOfReference(titles, refs, k, row)
    {
      RowOfReferenceIff(titles, refs, k, row);
      RowOfReferenceBound(titles, refs, k, row);
    }
  }

  lemma {:induction false} RowOfReferenceBound(titles: seq<Title>, refs: seq<Written>, k: nat, row: FkRow)
    ensures RowOfReference(titles, refs, k, row) ==> k < |refs|
  {
  }

  /** Tables, and behind them references, with any operators and in any direction. */
  lemma {:induction false} ReferencesRead(nodes: seq<Node>, titles: seq<Title>, refs: seq<Written>)
    requires NodesOk(nodes, titles) && Short(AllTableLines(nodes)) && AllOk(refs)
    ensures ReadWith(Parse(Cat(AllTableLines(nodes) + LinesFor(refs))), nodes, titles, refs)
  {
    hide AllTableLines, LinesFor, NodesOk, AllOk, Short, Run, Cat, Parse, Relations, AllRows, AllKeys, Oids, FkRows,
      Schemas,
      Separate, RowOfReference;
    TablesSeparate(nodes, titles);
    ReferencesUnbroken(refs);
    UnbrokenParts(AllTableLines(nodes), LinesFor(refs));
    ParseJoined(AllTableLines(nodes) + LinesFor(refs));
    TablesRun(nodes, titles);
    var s := Run(START, AllTableLines(nodes));
    AfterIsIdle(s, nodes, titles);
    RunConcat(START, AllTableLines(nodes), LinesFor(refs));
    ReferencesRun(s, refs);
    assert [] + SpecsFor(refs) == SpecsFor(refs);
    TitlesDistinct(nodes, titles);
    FkRowsOf(titles, refs);
  }

  lemma {:induction false} UnbrokenParts(a: seq<string>, b: seq<string>)
    requires Separate(a) && AllUnbroken(b)
    ensures AllUnbroken(a + b)
  {
    hide Unbroken;
  }

  // ---------------------------------------------------------------- documents with a reference in a column

  /** A table with one column, whose settings hold a reference. */
  function InlineTable(title: Title, name: string, kind: string, op: char, path: string): seq<string> {
    [HeaderLine(title.schema, title.name), "  " + DbmlLines.ColumnText(name, kind, InlineText(op, path)), "}"]
  }

  lemma {:induction false} InlineTableRun(s: State, nodes: seq<Node>, titles: seq<Title>, title: Title, name: string,
    kind: string, op: char, path: string, to: ColumnRef)
    requires |titles| == |nodes| && title !in titles && title.Ok() && IsAfter(s, nodes, titles)
    requires IsName(name) && !IsKeyword(name) && IsType(kind) && Calm(kind) && IsOperator(op) && ReadsAs(path, to)
    requires Short(InlineTable(title, name, kind, op, path))
    ensures var key, oid := (title.schema, title.name), |nodes| + 1;
      var s1 := EnterTable(s, key);
      && ReadsTable(s1, key, oid) && Valid(s)
      && Run(s, InlineTable(title, name, kind, op, path)) ==
        WithInline(s1, key, Bare(name), kind, op, path, to).(current := None)
  {
    hide Step, IsAfter, HeaderLine, DbmlLines.ColumnText, InlineText, EnterTable, IsName, IsKeyword, IsType, Calm,
      ReadsAs, Bare, After, ReadsTable;
    var key, oid := (title.schema, title.name), |nodes| + 1;
    var lines := InlineTable(title, name, kind, op, path);
    assert |lines[0]| <= MAX_LINE && |lines[1]| <= MAX_LINE;
    AfterIsIdle(s, nodes, titles);
    TableEntered(s, nodes, titles, title);
    HeaderStep(s, title);
    var s1 := EnterTable(s, key);
    ReadsTableMeans(s1, key, oid);
    InlineColumnRead(s1, key, name, kind, op, path, to);
    var s2 := WithInline(s1, key, Bare(name), kind, op, path, to);
    CloseStep(s2);
    ThreeSteps(s, lines);
  }

  lemma {:induction false} ReadsTableMeans(s: State, key: TableKey, oid: nat)
    requires ReadsTable(s, key, oid)
    ensures Valid(s) && s.ignored == 0 && !s.inIndexes && s.current == Some(key) && key in s.oids && s.oids[key] == oid
    ensures CountOid(s.columns, oid) == 0
  {
  }

  lemma {:induction false} ThreeSteps(s: State, lines: seq<string>)
    requires Valid(s) && |lines| == 3
    ensures Run(s, lines) == Step(Step(Step(s, lines[0]), lines[1]), lines[2])
  {
    hide Step;
    assert lines == [lines[0]] + [lines[1]] + [lines[2]];
    RunSingle(s, lines[0]);
    RunOne(s, [lines[0]], lines[1]);
    RunOne(s, [lines[0]] + [lines[1]], lines[2]);
  }

  /**
   What a document of some tables and then such a table is read as: the column is a primary key exactly if the table
   or column it refers to is called pk, and the reference leads from it or, with `<`, to it.
   */
  ghost predicate ReadWithInline(p: Snapshot, nodes: seq<Node>, titles: seq<Title>, title: Title, name: string,
                                 kind: string, op: char, table: string, column: string) {
    var isPk := LowerAll(table) == "pk" || LowerAll(column) == "pk";
    var oid, from, to := |titles| + 1, ColumnRef(title.schema, title.name, name), ColumnRef("public", table, column);
    && p.relations == Relations(titles + [title])
    && p.columns == AllRows(nodes) + [ColumnRow(oid, name, 1, kind, isPk, false)]
    && p.pks == AllKeys(nodes) + (if isPk then [PkRow(oid, name, |AllKeys(nodes)| + 1)] else [])
    && forall row :: row in p.fks <==>
      RowOfReference(titles + [title], [Written("", op, "", from, to)], 0, row)
  }

  lemma {:induction false} OneReference(titles: seq<Title>, r: Written, row: FkRow)
    requires forall a, b :: 0 <= a < b < |titles| ==> titles[a] != titles[b]
    ensures row in FkRows([r.Spec()], Oids(titles), 1) <==> RowOfReference(titles, [r], 0, row)
  {
    hide Oids, FkRows, RowOfReference;
    assert SpecsFor([r]) == [r.Spec()];
    FkRowsOf(titles, [r]);
    forall k: nat | RowOfReference(titles, [r], k, row) ensures k == 0 {
      RowOfReferenceBound(titles, [r], k, row);
    }
  }

  lemma {:induction false} WithInlineIs(s: State, key: TableKey, name: string, kind: string, op: char, table: string,
    column: string)
    requires key in s.oids && CountOid(s.columns, s.oids[key]) == 0
    requires IsOperator(op) && IsPlain(table) && IsPlain(column)
    ensures var isPk := LowerAll(table) == "pk" || LowerAll(column) == "pk";
      var oid, to := s.oids[key], ColumnRef("public", table, column);
      WithInline(s, key, name, kind, op, table + "." + column, to) == s.(
        columns := s.columns + [ColumnRow(oid, name, 1, kind, isPk, false)],
        pks := s.pks + (if isPk then [PkRow(oid, name, |s.pks| + 1)] else []),
        specs := s.specs + [Meant(op, ColumnRef(key.0, key.1, name), to)])
  {
    hide LowerAll, SaysPrimaryKey, Contains, InlineText, CountOid, Meant, IsPlain, IsOperator;
    InlineFlags(op, table, column);
    var settings := LowerAll(InlineText(op, table + "." + column));
    assert SaysPrimaryKey(settings) == (LowerAll(table) == "pk" || LowerAll(column) == "pk");
    assert s.pks + [] == s.pks;
  }

  lemma {:induction false} EnteredIs(s: State, nodes: seq<Node>, titles: seq<Title>, title: Title)
    requires |titles| == |nodes| && title !in titles && IsAfter(s, nodes, titles)
    ensures EnterTable(s, (title.schema, title.name)) == State(
      Relations(titles + [title]), AllRows(nodes), AllKeys(nodes), [], Oids(titles + [title]), |titles| + 2,
      Some((title.schema, title.name)), 0, false)
  {
    TableEntered(s, nodes, titles, title);
    assert (titles + [title])[..|titles|] == titles;
    hide AllRows, AllKeys, ReadsTable, EnterTable;
  }

  /** A column that refers to a column of a table of the document. */
  lemma {:induction false} InlineRead(nodes: seq<Node>, titles: seq<Title>, title: Title, name: string, kind: string,
    op: char, table: string, column: string)
    requires NodesOk(nodes, titles) && Short(AllTableLines(nodes)) && title.Ok() && title !in titles
    requires IsPlain(name) && !IsKeyword(name) && IsType(kind) && Calm(kind) && IsOperator(op)
    requires IsPlain(table) && IsPlain(column) && Short(InlineTable(title, name, kind, op, table + "." + column))
    ensures var lines := AllTableLines(nodes) + InlineTable(title, name, kind, op, table + "." + column);
      ReadWithInline(Parse(Cat(lines)), nodes, titles, title, name, kind, op, table, column)
  {
    hide AllTableLines, InlineTable, NodesOk, Short, Run, Cat, Parse, Relations, AllRows, AllKeys, Oids, FkRows,
      Schemas,
      Separate, RowOfReference, IsAfter, EnterTable, WithInline, IsType, Calm, IsKeyword, ReadsTable, IsPlain,
      ReadsAs, LowerAll;
    var lines := AllTableLines(nodes) + InlineTable(title, name, kind, op, table + "." + column);
    var to := ColumnRef("public", table, column);
    PlainIsName(name);
    PlainIsName(table);
    PlainIsName(column);
    TwoNames(table, column);
    TablesSeparate(nodes, titles);
    InlineUnbroken(title, name, kind, op, table + "." + column, to);
    UnbrokenParts(AllTableLines(nodes), InlineTable(title, name, kind, op, table + "." + column));
    ParseJoined(lines);
    TablesRun(nodes, titles);
    TitlesDistinct(nodes, titles);
    var s := Run(START, AllTableLines(nodes));
    InlineTableRun(s, nodes, titles, title, name, kind, op, table + "." + column, to);
    RunConcat(START, AllTableLines(nodes), InlineTable(title, name, kind, op, table + "." + column));
    EnteredIs(s, nodes, titles, title);
    var key := (title.schema, title.name);
    var s1 := EnterTable(s, key);
    ReadsTableMeans(s1, key, |nodes| + 1);
    WithInlineIs(s1, key, name, kind, op, table, column);
    var r := Written("", op, "", ColumnRef(title.schema, title.name, name), to);
    assert [] + [r.Spec()] == [r.Spec()];
    forall row ensures row in FkRows([r.Spec()], Oids(titles + [title]), 1) <==>
      RowOfReference(titles + [title], [r], 0, row)
    {
      OneReference(titles + [title], r, row);
    }
  }

  lemma {:induction false} InlineUnbroken(title: Title, name: string, kind: string, op: char, path: string,
    to: ColumnRef)
    requires title.Ok() && IsName(name) && IsType(kind) && Calm(kind) && IsOperator(op) && ReadsAs(path, to)
    ensures AllUnbroken(InlineTable(title, name, kind, op, path))
  {
    HeaderClean(title);
    InlineCalm(kind, op, path);
    var t := kind + (" [" + InlineText(op, path) + "]");
    ColumnClean(name, t);
    assert DbmlLines.ColumnText(name, kind, InlineText(op, path)) == name + (" " + t);
    assert Unbroken("}");
    hide HeaderLine, InlineText, IsType, Calm, Unbroken, IsName;
  }

  // ---------------------------------------------------------------- what any settings say

  ghost predicate Parts3(s: string, a: string, t: string, b: string) {
    s == a + t + b
  }

  /** The text occurs. */
  ghost predicate Says(s: string, t: string) {
    exists a, b :: Parts3(s, a, t, b)
  }

  /** The text occurs, and no letter or digit stands on either side of it. */
  ghost predicate SaysWord(s: string, t: string) {
    exists a, b :: Parts3(s, a, t, b) && (a == "" || !IsWordChar(a[|a| - 1])) && EndsWord(b)
  }

  /** The two texts occur with nothing but blanks, and at least one, between them. */
  ghost predicate SaysApart(s: string, t: string, u: string) {
    exists a, gap, b :: Parts3(s, a, t + gap + u, b) && gap != "" && forall c :: c in gap ==> IsSpace(c)
  }

  lemma {:induction false} OccursParts(s: string, t: string, k: nat)
    requires OccursAt(s, t, k)
    ensures Parts3(s, s[..k], t, s[k + |t|..])
  {
  }

  lemma {:induction false} PartsOccur(s: string, a: string, t: string, b: string)
    requires Parts3(s, a, t, b)
    ensures OccursAt(s, t, |a|) && s[..|a|] == a && s[|a| + |t|..] == b
  {
  }

  lemma {:induction false} ContainsIff(s: string, t: string)
    ensures Contains(s, t) <==> Says(s, t)
  {
    hide OccursAt, Parts3;
    if k: nat :| k <= |s| && OccursAt(s, t, k) {
      OccursParts(s, t, k) by { OccursInside(s, t, k); }
    }
    if a, b :| Parts3(s, a, t, b) {
      PartsOccur(s, a, t, b);
      OccursInside(s, t, |a|);
    }
  }

  lemma {:induction false} OccursInside(s: string, t: string, k: int)
    requires OccursAt(s, t, k)
    ensures 0 <= k && k + |t| <= |s|
  {
  }

  lemma {:induction false} WordIff(s: string)
    ensures SaysWord(s, "pk") <==> exists k: nat :: k <= |s| && WordAt(s, "pk", k)
  {
    hide OccursAt, Parts3, IsWordChar;
    if k: nat :| k <= |s| && WordAt(s, "pk", k) {
      OccursInside(s, "pk", k);
      OccursParts(s, "pk", k);
    }
    if a, b :| Parts3(s, a, "pk", b) && (a == "" || !IsWordChar(a[|a| - 1])) && EndsWord(b) {
      PartsOccur(s, a, "pk", b);
      OccursInside(s, "pk", |a|);
      assert WordAt(s, "pk", |a|);
    }
  }

  lemma {:induction false} BlanksBefore(s: string)
    ensures exists gap :: s == gap + StripLeft(s, IsSpace) && forall c :: c in gap ==> IsSpace(c)
  {
    if s != "" && IsSpace(s[0]) {
      BlanksBefore(s[1..]);
      var gap :| s[1..] == gap + StripLeft(s[1..], IsSpace) && forall c :: c in gap ==> IsSpace(c);
      assert s == ([s[0]] + gap) + StripLeft(s, IsSpace);
    } else {
      assert s == "" + StripLeft(s, IsSpace);
    }
  }

  lemma {:induction false} BlanksSkipped(gap: string, r: string)
    requires (forall c :: c in gap ==> IsSpace(c)) && r != "" && !IsSpace(r[0])
    ensures StripLeft(gap + r, IsSpace) == r
  {
    if gap != "" {
      assert (gap + r)[1..] == gap[1..] + r;
      BlanksSkipped(gap[1..], r);
    } else {
      assert gap + r == r;
    }
  }

  lemma {:induction false} PrimaryKeySaid(s: string, k: nat)
    requires k <= |s| && PrimaryKeyAt(s, k)
    ensures SaysApart(s, "primary", "key")
  {
    hide OccursAt, StripLeft;
    OccursInside(s, "primary", k);
    OccursParts(s, "primary", k);
    var rest := s[k + 7..];
    BlanksBefore(rest);
    var gap :| rest == gap + StripLeft(rest, IsSpace) && forall c :: c in gap ==> IsSpace(c);
    var after := StripLeft(rest, IsSpace);
    assert after[..3] == "key";
    JoinedParts(s, s[..k], "primary", gap, "key", after);
  }

  lemma {:induction false} JoinedParts(s: string, a: string, t: string, gap: string, u: string, after: string)
    requires Parts3(s, a, t, gap + after) && |u| <= |after| && after[..|u|] == u
    ensures Parts3(s, a, t + gap + u, after[|u|..])
  {
    assert after == u + after[|u|..];
    assert gap + after == gap + u + after[|u|..];
  }

  lemma {:induction false} SaidPrimaryKey(s: string, a: string, gap: string, b: string)
    requires Parts3(s, a, "primary" + gap + "key", b) && gap != "" && forall c :: c in gap ==> IsSpace(c)
    ensures |a| <= |s| && PrimaryKeyAt(s, |a|)
  {
    var r := "key" + b;
    assert s == a + "primary" + (gap + r);
    assert s[|a|..|a| + 7] == "primary" && s[|a| + 7..] == gap + r && r[..3] == "key" && r[0] == 'k';
    BlanksSkipped(gap, r);
  }

  lemma {:induction false} PrimaryKeyIff(s: string)
    ensures SaysPrimaryKey(s) <==> SaysWord(s, "pk") || SaysApart(s, "primary", "key")
  {
    WordIff(s);
    hide WordAt, PrimaryKeyAt, Parts3, SaysWord;
    if k: nat :| k <= |s| && PrimaryKeyAt(s, k) {
      PrimaryKeySaid(s, k);
    }
    if a, gap, b :| Parts3(s, a, "primary" + gap + "key", b) && gap != "" && forall c :: c in gap ==> IsSpace(c) {
      SaidPrimaryKey(s, a, gap, b);
    }
  }

  /** What the importer adds for a column, whatever its settings: they are searched in lower case. */
  lemma {:induction false} ColumnAdded(s: State, key: TableKey, c: ColumnLine)
    requires key in s.oids
    ensures var t, settings, oid := AddColumn(s, key, c), LowerAll(c.settings), s.oids[key];
      var isPk := SaysWord(settings, "pk") || SaysApart(settings, "primary", "key");
      && t.columns == s.columns + [ColumnRow(
        oid, c.name, CountOid(s.columns, oid) + 1, c.dataType, isPk || Says(settings, "not null"),
        Says(settings, "default:"))]
      && t.pks == s.pks + (if isPk then [PkRow(oid, c.name, |s.pks| + 1)] else [])
  {
    hide SaysPrimaryKey, Contains, Says, SaysWord, SaysApart, LowerAll, FindInline, CountOid, SplitColumnRef;
    var settings := LowerAll(c.settings);
    PrimaryKeyIff(settings);
    ContainsIff(settings, "not null");
    ContainsIff(settings, "default:");
    assert s.pks + [] == s.pks;
  }
}
