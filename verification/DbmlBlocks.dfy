/**
 What backend/app/spec/dbml_import.py passes over: blocks that are no tables, and the index lists of tables. Its
 documentation calls both ignored; a block whose brace stands on the next line takes everything behind it along, and
 an index list that is closed on a line of its own ends its table.
 */
module DbmlBlocks {
  import opened Dicts
  import opened Text
  import opened DbmlLines
  import opened Dbml
  import opened DbmlNotes
  import opened DbmlRoundTrip

  // ---------------------------------------------------------------- blocks that are no tables

  /** By how much a line of a skipped block changes the depth. */
  function Weight(raw: string): int {
    if |raw| > MAX_LINE then 0 else Braces(CleanLine(raw))
  }

  function Depth(lines: seq<string>): int {
    if lines == [] then 0 else Depth(lines[..|lines| - 1]) + Weight(lines[|lines| - 1])
  }

  lemma {:induction false} SkipStep(s: State, raw: string)
    requires Valid(s) && s.ignored != 0
    ensures Step(s, raw) == s.(ignored := s.ignored + Weight(raw))
  {
    hide CleanLine, StartsIgnored, TableHeader, StartsWithWord, StartsIndexes, ColumnOf, CountChar;
    if CleanLine(raw) == "" {
      assert Braces("") == 0 by { NoBraces(); }
    }
  }

  lemma {:induction false} NoBraces()
    ensures Braces("") == 0
  {
  }

  /** The depth is not zero before the last of the lines. */
  ghost predicate Inside(depth: int, lines: seq<string>) {
    forall k :: 0 <= k < |lines| ==> depth + Depth(lines[..k]) != 0
  }

  /** While the depth is not zero, lines only change the depth. */
  lemma {:induction false} SkipRun(s: State, lines: seq<string>)
    requires Valid(s) && Inside(s.ignored, lines)
    ensures Run(s, lines) == s.(ignored := s.ignored + Depth(lines))
  {
    hide Step, Weight;
    if lines != [] {
      var n := |lines| - 1;
      assert forall k :: 0 <= k < n ==> lines[..n][..k] == lines[..k];
      SkipRun(s, lines[..n]);
      assert s.ignored + Depth(lines[..n]) != 0;
      SkipStep(Run(s, lines[..n]), lines[n]);
    }
  }

  /** The first line of a block: Project, Enum, TableGroup or Note, in any case. */
  ghost predicate OpensBlock(raw: string) {
    |raw| <= MAX_LINE && CleanLine(raw) != "" && StartsIgnored(CleanLine(raw))
  }

  lemma {:induction false} OpenStep(s: State, raw: string)
    requires Valid(s) && s.ignored == 0 && OpensBlock(raw)
    ensures Step(s, raw) ==
      s.(ignored := if Weight(raw) <= 0 && '{' !in CleanLine(raw) then 1 else Weight(raw))
  {
    hide CleanLine, StartsIgnored, TableHeader, StartsWithWord, StartsIndexes, ColumnOf, Braces;
  }

  /** A block that opens on its first line and closes on its last leaves no trace. */
  lemma {:induction false} BlockSkipped(s: State, first: string, lines: seq<string>)
    requires Valid(s) && s.ignored == 0 && OpensBlock(first) && Weight(first) > 0
    requires Inside(Weight(first), lines) && Weight(first) + Depth(lines) == 0
    ensures Run(s, [first] + lines) == s
  {
    hide Step, Weight, OpensBlock;
    RunConcat(s, [first], lines);
    RunSingle(s, first);
    OpenStep(s, first);
    SkipRun(Step(s, first), lines);
  }

  /** A document may have such a block in front. */
  lemma {:induction false} BlockInFront(first: string, lines: seq<string>, rest: string)
    requires OpensBlock(first) && Weight(first) > 0
    requires Inside(Weight(first), lines) && Weight(first) + Depth(lines) == 0
    requires AllUnbroken([first] + lines)
    ensures Parse(Cat([first] + lines) + rest) == Parse(rest)
  {
    hide Run, Lines, Cat, Finish, OpensBlock, Weight, Depth, Inside;
    LinesOfCat([first] + lines, rest);
    BlockSkipped(START, first, lines);
    RunConcat(START, [first] + lines, Lines(rest));
  }

  /** The depth never goes below zero. */
  ghost predicate NeverBelow(lines: seq<string>) {
    forall k :: 0 <= k <= |lines| ==> Depth(lines[..k]) >= 0
  }

  /**
   A first line without its brace counts as an open brace: whatever well-nested lines follow it, its block, further
   tables and references, none of them is read.
   */
  lemma {:induction false} BraceBelowSwallows(s: State, first: string, lines: seq<string>)
    requires Valid(s) && s.ignored == 0 && OpensBlock(first) && '{' !in CleanLine(first) && NeverBelow(lines)
    ensures Run(s, [first] + lines) == s.(ignored := 1 + Depth(lines))
  {
    hide Step, Depth, CleanLine, StartsIgnored, Braces;
    RunConcat(s, [first], lines);
    RunSingle(s, first);
    OpenStep(s, first);
    assert Weight(first) <= 0 by { NoOpening(CleanLine(first)); }
    SkipRun(Step(s, first), lines);
  }

  lemma {:induction false} NoOpening(line: string)
    requires '{' !in line
    ensures Braces(line) <= 0
  {
    CountNone(line, '{');
  }

  lemma {:induction false} CountNone(s: string, c: char)
    requires c !in s
    ensures CountChar(s, c) == 0
  {
    if s != "" {
      CountNone(s[1..], c);
    }
  }

  /** A document that starts so has no tables. */
  lemma {:induction false} NothingRead(first: string, lines: seq<string>)
    requires OpensBlock(first) && '{' !in CleanLine(first) && NeverBelow(lines) && AllUnbroken([first] + lines)
    ensures Parse(Cat([first] + lines)) == Snapshot([], [], [], [], [])
  {
    hide Run, Lines, Cat, OpensBlock, Depth, NeverBelow, CleanLine;
    LinesOfCat([first] + lines, "");
    assert Cat([first] + lines) + "" == Cat([first] + lines);
    EmptyText();
    BraceBelowSwallows(START, first, lines);
    RunOne(START, [first] + lines, "");
    BlankStep(Run(START, [first] + lines));
    NothingFound();
  }

  lemma {:induction false} EmptyText()
    ensures Lines("") == [""]
  {
  }

  lemma {:induction false} NothingFound()
    ensures Schemas([]) == [] && FkRows([], map[], 0) == []
  {
  }

  // ---------------------------------------------------------------- which lines open one

  lemma {:induction false} WordOpens(word: string, r: string)
    requires IsName(word) && IsPlain(word) && IsIgnoredWord(LowerAll(word)) && EndsWord(r)
    ensures StartsIgnored(word + r)
  {
    hide IsName, LowerAll, StartsWithWord, IsPlain;
    FirstNameDecides(word, r, "project");
    FirstNameDecides(word, r, "enum");
    FirstNameDecides(word, r, "tablegroup");
    FirstNameDecides(word, r, "note");
  }

  /** word name {, on one line, and the same without the brace. */
  function BlockLine(word: string, name: string, end: string): string {
    word + (" " + (name + end))
  }

  lemma {:induction false} BlockLineClean(word: string, name: string, end: string)
    requires IsPlain(word) && IsPlain(name) && (end == "" || end == " {")
    ensures CleanLine(BlockLine(word, name, end)) == BlockLine(word, name, end)
  {
    WordIsCalm(word);
    WordIsCalm(name);
    assert Calm(" ") && Calm(end);
    hide Calm;
    CalmConcat(name, end);
    CalmConcat(" ", name + end);
    CalmConcat(word, " " + (name + end));
    var line := BlockLine(word, name, end);
    assert line[0] == word[0] && line[|line| - 1] == if end == "" then name[|name| - 1] else '{';
    CleanText(line);
  }

  lemma {:induction false} BlockLineOpens(word: string, name: string, end: string)
    requires IsPlain(word) && IsIgnoredWord(LowerAll(word)) && IsPlain(name) && |word| + |name| + 3 <= MAX_LINE
    requires end == "" || end == " {"
    ensures OpensBlock(BlockLine(word, name, end))
    ensures CleanLine(BlockLine(word, name, end)) == BlockLine(word, name, end)
    ensures |BlockLine(word, name, end)| <= MAX_LINE
  {
    hide LowerAll, IsIgnoredWord, StartsIgnored, CleanLine, IsName, IsPlain;
    PlainIsName(word);
    BlockLineClean(word, name, end);
    WordOpens(word, " " + (name + end));
    assert BlockLine(word, name, end) != "";
  }

  lemma {:induction false} PlainChars(word: string, name: string)
    requires IsPlain(word) && IsPlain(name)
    ensures forall c :: c in BlockLine(word, name, "") ==> IsWordChar(c) || c == ' '
    ensures BlockLine(word, name, " {") == BlockLine(word, name, "") + " {"
  {
    hide IsWordChar;
    assert BlockLine(word, name, " {") == word + (" " + (name + "")) + " {";
  }

  /** Enum name {, and so on. */
  lemma {:induction false} BlockOpens(word: string, name: string)
    requires IsPlain(word) && IsIgnoredWord(LowerAll(word)) && IsPlain(name) && |word| + |name| + 3 <= MAX_LINE
    ensures OpensBlock(BlockLine(word, name, " {")) && Weight(BlockLine(word, name, " {")) == 1
    ensures OpensBlock(BlockLine(word, name, "")) && '{' !in CleanLine(BlockLine(word, name, ""))
  {
    hide LowerAll, IsIgnoredWord, OpensBlock, CleanLine, Braces, IsPlain, BlockLine;
    BlockLineOpens(word, name, " {");
    BlockLineOpens(word, name, "");
    PlainChars(word, name);
    BraceBehind(BlockLine(word, name, ""));
  }

  lemma {:induction false} BraceBehind(bare: string)
    requires forall c :: c in bare ==> IsWordChar(c) || c == ' '
    ensures Braces(bare + " {") == 1 && '{' !in bare
  {
    CountBehind(bare, " {", '{');
    CountBehind(bare, " {", '}');
    assert " {"[1..] == "{" && "{"[1..] == "";
  }

  // ---------------------------------------------------------------- index lists

  predicate InTable(s: State) {
    Valid(s) && s.ignored == 0 && s.current.Some?
  }

  /** A line of an index list: it starts with a parenthesis, or is the closing brace. */
  predicate IsEntry(t: string) {
    t != "" && (t[0] == '(' || t[0] == '}') && Calm(t) && !IsSpace(t[|t| - 1]) && |t| + 2 <= MAX_LINE
  }

  lemma {:induction false} IndexesIsPlain()
    ensures IsPlain("indexes") && LowerAll("indexes") == "indexes" && Calm("indexes {")
  {
    hide IsPlain, Calm, LowerAll;
    IndexesIsWord();
    LowerIsFixed("indexes") by {
      IndexesIsLower();
    }
    IndexesIsCalm();
  }

  lemma {:induction false} IndexesIsWord()
    ensures IsPlain("indexes")
  {
  }

  lemma {:induction false} IndexesIsLower()
    ensures forall c :: c in "indexes" ==> Lower(c) == c
  {
  }

  lemma {:induction false} LowerIsFixed(s: string)
    requires forall c :: c in s ==> Lower(c) == c
    ensures LowerAll(s) == s
  {
    hide Lower;
  }

  lemma {:induction false} IndexesIsCalm()
    ensures Calm("indexes {")
  {
  }

  lemma {:induction false} IndexesIsNoKeyword()
    requires LowerAll("indexes") == "indexes"
    ensures !IsKeyword("indexes")
  {
    hide LowerAll, IsPlain;
  }

  lemma {:induction false} IndexesStart()
    requires LowerAll("indexes") == "indexes"
    ensures StartsIndexes("indexes {")
  {
    var line := "indexes {";
    assert line[..7] == "indexes" && line[7..] == " {";
    assert StripLeft(" {", IsSpace) == "{" by { assert " {"[1..] == "{"; }
    hide LowerAll;
  }

  lemma {:induction false} OpeningLine()
    ensures var line := "indexes {";
      && CleanLine("  " + line) == line && !StartsIgnored(line) && TableHeader(line).None?
      && !StartsWithWord(line, "ref") && StartsIndexes(line)
  {
    hide CleanLine, IsName, TableHeader, StartsIgnored, Calm, StartsWithWord, StartsIndexes, IsKeyword, IsPlain,
      LowerAll;
    IndexesIsPlain();
    IndexesIsNoKeyword();
    IndexesStart();
    PlainIsName("indexes");
    assert "indexes {" == "indexes" + " {";
    CleanText("indexes {");
    NotAKeywordLine("indexes", " {");
  }

  lemma {:induction false} IndexesOpen(s: State)
    requires InTable(s)
    ensures Step(s, "  indexes {") == s.(inIndexes := true)
  {
    hide CleanLine, StartsIgnored, TableHeader, StartsWithWord, StartsIndexes, ColumnOf, AddColumn, AddReference,
      Braces,
      EnterTable;
    OpeningLine();
    assert "  " + "indexes {" == "  indexes {";
  }

  lemma {:induction false} NoWordAtStart(t: string, word: string)
    requires t != "" && !IsWordChar(t[0]) && IsWordText(word)
    ensures !StartsWith(t, word)
  {
    if |word| <= |t| {
      LowerKeepsWord(t[..|word|]);
      assert t[..|word|][0] == t[0];
    }
    hide LowerAll;
  }

  lemma {:induction false} EntrySeen(t: string)
    requires IsEntry(t)
    ensures CleanLine("  " + t) == t && !StartsIgnored(t) && TableHeader(t).None? && !StartsWithWord(t, "ref")
    ensures !StartsIndexes(t)
  {
    hide CleanLine, Calm, TableHeader, StartsWithWord, LowerAll;
    CleanText(t);
    QuoteIsNoWord(t, "project");
    QuoteIsNoWord(t, "enum");
    QuoteIsNoWord(t, "tablegroup");
    QuoteIsNoWord(t, "note");
    QuoteIsNoWord(t, "ref");
    NoWordAtStart(t, "indexes");
    NoHeader(t);
  }

  lemma {:induction false} NoHeader(t: string)
    requires t != "" && !IsWordChar(t[0])
    ensures TableHeader(t).None?
  {
    hide TableName, TailOk, SplitTableName;
    if |t| >= 6 {
      LowerKeepsWord(t[..5]);
      assert t[..5][0] == t[0] && "table"[0] == 't';
    }
  }

  /** An entry is passed over; with a closing brace it ends the list, and if it starts with one also the table. */
  lemma {:induction false} EntryStep(s: State, t: string)
    requires InTable(s) && s.inIndexes && IsEntry(t)
    ensures Step(s, "  " + t) ==
      if t[0] == '}' then s.(current := None, inIndexes := false) else s.(inIndexes := '}' !in t)
  {
    EntrySeen(t);
    hide CleanLine, StartsIgnored, TableHeader, StartsWithWord, StartsIndexes, ColumnOf, AddColumn, AddReference, Calm;
  }

  function Lined(entries: seq<string>): (lines: seq<string>)
    ensures |lines| == |entries| && forall k :: 0 <= k < |lines| ==> lines[k] == "  " + entries[k]
  {
    seq(|entries|, k requires 0 <= k < |entries| => "  " + entries[k])
  }

  ghost predicate OpenEntries(entries: seq<string>) {
    forall k :: 0 <= k < |entries| ==> IsEntry(entries[k]) && '}' !in entries[k]
  }

  lemma {:induction false} EntriesRun(s: State, entries: seq<string>)
    requires InTable(s) && s.inIndexes && OpenEntries(entries)
    ensures Run(s, Lined(entries)) == s
  {
    hide Step, InTable, IsEntry;
    if entries != [] {
      var n := |entries| - 1;
      EntriesRun(s, entries[..n]);
      assert Lined(entries) == Lined(entries[..n]) + ["  " + entries[n]];
      assert Valid(s) by { InTableIsValid(s); }
      RunOne(s, Lined(entries[..n]), "  " + entries[n]);
      assert entries[n][0] != '}' by { EntryStarts(entries[n]); }
      EntryStep(s, entries[n]);
    }
  }

  lemma {:induction false} InTableIsValid(s: State)
    requires InTable(s)
    ensures Valid(s)
  {
  }

  lemma {:induction false} EntryStarts(t: string)
    requires IsEntry(t) && '}' !in t
    ensures t != "" && t[0] == '('
  {
  }

  /**
   An index list adds nothing. If its closing brace stands at the end of an entry the importer is back in the table;
   if it stands on a line of its own, the importer has left the table.
   */
  lemma {:induction false} IndexListEnds(s: State, entries: seq<string>, last: string)
    requires InTable(s) && !s.inIndexes && OpenEntries(entries) && IsEntry(last) && '}' in last
    ensures Run(s, ["  indexes {"] + Lined(entries) + ["  " + last]) == s.(
      current := if last[0] == '}' then None else s.current)
  {
    hide Step, InTable, IsEntry, OpenEntries;
    InTableIsValid(s);
    EntryIsNotEmpty(last);
    var s1 := s.(inIndexes := true);
    IndexesOpen(s);
    RunSingle(s, "  indexes {");
    RunConcat(s, ["  indexes {"], Lined(entries));
    RunOne(s, ["  indexes {"] + Lined(entries), "  " + last);
    StillInTable(s);
    EntriesRun(s1, entries);
    EntryStep(s1, last);
  }

  lemma {:induction false} EntryIsNotEmpty(t: string)
    requires IsEntry(t)
    ensures t != ""
  {
  }

  lemma {:induction false} StillInTable(s: State)
    requires InTable(s)
    ensures InTable(s.(inIndexes := true))
  {
  }

  /** Outside tables a column line is passed over. */
  lemma {:induction false} ColumnOutside(s: State, name: string, t: string)
    requires Valid(s) && s.ignored == 0 && s.current.None?
    requires IsName(name) && !IsKeyword(name) && Calm(t) && t != "" && IsWordChar(t[0]) && !IsSpace(t[|t| - 1])
    ensures Step(s, "  " + (name + (" " + t))) == s
  {
    ColumnLineSeen(name, t);
    hide CleanLine, StartsIgnored, TableHeader, StartsWithWord, StartsIndexes, ColumnOf, AddColumn, AddReference, Calm;
  }

  /** Columns behind an index list that is closed on its own line are lost. */
  lemma {:induction false} ColumnBehindIsLost(s: State, entries: seq<string>, name: string, t: string)
    requires InTable(s) && !s.inIndexes && OpenEntries(entries)
    requires IsName(name) && !IsKeyword(name) && Calm(t) && t != "" && IsWordChar(t[0]) && !IsSpace(t[|t| - 1])
    ensures Run(s, ["  indexes {"] + Lined(entries) + ["  }"] + ["  " + (name + (" " + t))]) == s.(current := None)
  {
    assert IsEntry("}") && "  " + "}" == "  }";
    hide Step, IsName, IsKeyword, Calm, OpenEntries;
    IndexListEnds(s, entries, "}");
    RunOne(s, ["  indexes {"] + Lined(entries) + ["  }"], "  " + (name + (" " + t)));
    ColumnOutside(s.(current := None), name, t);
  }

  // ---------------------------------------------------------------- headers

  /** What may follow a table's name: nothing or a brace, and before it perhaps an alias. */
  ghost predicate IsTail(tail: string) {
    || tail == "" || tail == " {" || tail == "{"
    || exists alias :: IsWordText(alias) && (tail == " as " + alias || tail == " as " + alias + " {")
  }

  lemma {:induction false} AliasTail(alias: string)
    requires IsWordText(alias)
    ensures TailOk(" as " + alias) && TailOk(" as " + alias + " {")
  {
    AliasRest(alias, "");
    AliasRest(alias, " {");
    assert " as " + alias + "" == " as " + alias;
  }

  lemma {:induction false} AliasRest(alias: string, end: string)
    requires IsWordText(alias) && (end == "" || end == " {")
    ensures TailOk(" as " + alias + end)
  {
    var rest := "as " + (alias + end);
    assert " as " + alias + end == " " + rest;
    assert rest[0] == 'a' && rest[..2] == "as" && rest[2..] == " " + (alias + end) && rest[2] == ' ';
    assert LowerAll("as") == "as";
    AliasStripped(alias, end);
    assert (alias + end)[0] == alias[0];
    SkipBlank(alias + end);
    SpanStops(alias, end, IsWordChar);
    assert (alias + end)[|alias|..] == end;
    assert StripLeft(end, IsSpace) == if end == "" then "" else "{" by { assert " {"[1..] == "{"; }
    hide Strip, Span, LowerAll;
  }

  lemma {:induction false} AliasStripped(alias: string, end: string)
    requires IsWordText(alias) && (end == "" || end == " {")
    ensures Strip(" " + ("as " + (alias + end)), IsSpace) == "as " + (alias + end)
  {
    var rest := "as " + (alias + end);
    assert rest[0] == 'a' && rest[|rest| - 1] == if end == "" then alias[|alias| - 1] else '{';
    StripEnds(rest, IsSpace);
    SkipBlank(rest);
  }

  lemma {:induction false} TailIsOk(tail: string)
    requires IsTail(tail)
    ensures TailOk(tail) && (tail == "" || tail[0] == ' ' || tail[0] == '{')
  {
    if tail == "{" {
      StripEnds("{", IsSpace);
    } else if tail == " {" {
      TailBrace();
    } else if tail != "" {
      var alias :| IsWordText(alias) && (tail == " as " + alias || tail == " as " + alias + " {");
      AliasTail(alias);
    }
  }

  lemma {:induction false} HeaderSkips(s: string)
    requires s != "" && !IsSpace(s[0])
    ensures var line := "Table " + s;
      LowerAll(line[..5]) == "table" && line[5] == ' ' && StripLeft(line[5..], IsSpace) == s
  {
    var line := "Table " + s;
    assert line[..5] == "Table" && line[5..] == " " + s && LowerAll("Table") == "table";
    SkipBlank(s);
  }

  /** A table without a schema is in the schema `public`. */
  lemma {:induction false} PlainHeader(name: string, tail: string)
    requires IsPlain(name) && IsTail(tail)
    ensures TableHeader("Table " + (name + tail)) == Some(("public", name))
  {
    hide TailOk, IsTail, StripLeft, Strip, Split, LowerAll, TableName, SplitTableName, IsPlain;
    TailIsOk(tail);
    PlainNameRead(name, tail);
    HeaderSkips(name + tail);
  }

  lemma {:induction false} PlainNameRead(name: string, tail: string)
    requires IsPlain(name) && (tail == "" || tail[0] == ' ' || tail[0] == '{')
    ensures TableName(name + tail) == Found(name, tail) && SplitTableName(name) == ("public", name)
    ensures name + tail != "" && !IsSpace((name + tail)[0])
  {
    PlainIsName(name);
    SpanStops(name, tail, IsTableNameChar);
    SplitWhole(name, '.');
    StripEnds(name, IsSpace);
    StripEnds(name, IsQuote);
    assert (name + tail)[|name|..] == tail && (name + tail)[0] == name[0];
    hide Strip, Split;
  }

  lemma {:induction false} QuotedNameRead(name: string, tail: string)
    requires name != "" && '"' !in name && '.' !in name && !IsSpace(name[0]) && !IsSpace(name[|name| - 1])
    ensures TableName("\"" + (name + ("\"" + tail))) == Found(name, tail) && SplitTableName(name) == ("public", name)
  {
    var s := "\"" + (name + ("\"" + tail));
    SpanStops(name, "\"" + tail, IsNotQuote);
    StripEnds(name, IsSpace);
    StripEnds(name, IsQuote);
    assert s[1..] == name + ("\"" + tail) && s[|name| + 2..] == tail;
    hide Strip;
  }

  /** So is one whose quoted name has no dot and no blanks at its ends. */
  lemma {:induction false} QuotedHeader(name: string, tail: string)
    requires name != "" && '"' !in name && '.' !in name && !IsSpace(name[0]) && !IsSpace(name[|name| - 1])
    requires IsTail(tail)
    ensures TableHeader("Table " + ("\"" + (name + ("\"" + tail)))) == Some(("public", name))
  {
    hide TailOk, IsTail, StripLeft, Strip, LowerAll, TableName, SplitTableName;
    TailIsOk(tail);
    QuotedNameRead(name, tail);
    HeaderSkips("\"" + (name + ("\"" + tail)));
  }
}
