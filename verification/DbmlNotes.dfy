/** The comment of a table, which the DBML exporter writes as a note and the importer takes for a block to skip. */
module DbmlNotes {
  import opened Dicts
  import opened Text
  import opened DbmlLines
  import opened Dbml

  function NoteLine(comment: string): string {
    "  Note: '" + EscapeString(comment) + "'"
  }

  /** What the importer sees of the line. */
  function NoteText(comment: string): string {
    CleanLine(NoteLine(comment))
  }

  /** The note and the brace that closes its table leave the importer reading. */
  predicate NoteKeeps(comment: string) {
    var t := NoteText(comment);
    Braces(t) == 0 || Braces(t) == 1 || (Braces(t) < 0 && '{' !in t)
  }

  lemma {:induction false} CutBehind(a: string, b: string)
    requires '/' !in a
    ensures CutComment(a + b) == a + CutComment(b)
  {
    if a == "" {
      assert a + b == b;
    } else {
      assert (a + b)[1..] == a[1..] + b && (a + b)[0] == a[0];
      CutBehind(a[1..], b);
      assert a == [a[0]] + a[1..];
    }
  }

  lemma {:induction false} StripRightBehind(a: string, b: string) returns (c: string)
    requires a != "" && !IsSpace(a[|a| - 1])
    ensures StripRight(a + b, IsSpace) == a + c
  {
    var s := a + b;
    if b == "" {
      assert s == a;
      c := "";
    } else if IsSpace(s[|s| - 1]) {
      assert s[..|s| - 1] == a + b[..|b| - 1];
      c := StripRightBehind(a, b[..|b| - 1]);
    } else {
      c := b;
    }
  }

  lemma {:induction false} StripIndent(t: string)
    requires t != "" && !IsSpace(t[0])
    ensures StripLeft("  " + t, IsSpace) == t
  {
    SkipBlank(t);
    assert ("  " + t)[1..] == " " + t;
  }

  lemma {:induction false} NoteStarts(comment: string) returns (rest: string)
    ensures NoteText(comment) == "Note:" + rest
  {
    hide EscapeString, CutComment, StripLeft, StripRight;
    var lead, body := "  Note: '", EscapeString(comment) + "'";
    assert '/' !in lead by { NoSlash(); }
    CutBehind(lead, body);
    var cut := CutComment(body);
    assert lead + body == NoteLine(comment) && lead + cut == "  " + ("Note: '" + cut);
    StripIndent("Note: '" + cut);
    var c := StripRightBehind("Note: '", cut);
    rest := " '" + c;
    assert "Note: '" + c == "Note:" + rest;
  }

  lemma {:induction false} NoSlash()
    ensures '/' !in "  Note: '"
  {
    assert "  Note: '" == [' ', ' ', 'N', 'o', 't', 'e', ':', ' ', '\''];
  }

  lemma {:induction false} NoteSeen(comment: string)
    ensures NoteText(comment) != "" && StartsIgnored(NoteText(comment))
  {
    var rest := NoteStarts(comment);
    var t := NoteText(comment);
    hide NoteText;
    assert t[..4] == "Note" && t[4] == ':';
    assert LowerAll("Note") == "note";
  }

  lemma {:induction false} NoteStep(s: State, comment: string)
    requires Valid(s) && s.ignored == 0 && |NoteLine(comment)| <= MAX_LINE
    ensures var t := NoteText(comment);
      Step(s, NoteLine(comment)) == s.(ignored := if Braces(t) <= 0 && '{' !in t then 1 else Braces(t))
  {
    NoteSeen(comment);
    hide CleanLine, StartsIgnored, NoteLine, Braces, TableHeader, StartsWithWord, ColumnOf, StartsIndexes;
  }

  lemma {:induction false} BraceText()
    ensures CleanLine("}") == "}" && Braces("}") == -1
  {
    assert CutComment("}") == "}" by { assert "}"[1..] == ""; }
    StripEnds("}", IsSpace);
    assert "}"[1..] == "";
  }

  lemma {:induction false} BraceStep(s: State)
    requires Valid(s) && s.ignored != 0
    ensures Step(s, "}") == s.(ignored := s.ignored - 1)
  {
    BraceText();
    hide CleanLine, Braces, StartsIgnored, TableHeader, StartsWithWord, ColumnOf, StartsIndexes;
  }

  lemma {:induction false} CloseStep(s: State)
    requires Valid(s) && s.ignored == 0
    ensures Step(s, "}") == s.(current := None, inIndexes := false)
  {
    BraceText();
    assert !StartsIgnored("}") && TableHeader("}").None?;
    hide CleanLine, Braces, StartsIgnored, TableHeader, StartsWithWord, ColumnOf, StartsIndexes;
  }

  /**
   After the note and the closing brace, the importer reads on exactly when the note keeps it; else it skips lines.
   */
  lemma {:induction false} NoteIff(s: State, comment: string)
    requires Valid(s) && s.ignored == 0 && !s.inIndexes && |NoteLine(comment)| <= MAX_LINE
    ensures var t := Step(Step(s, NoteLine(comment)), "}");
      && (t.ignored == 0 <==> NoteKeeps(comment))
      && t.(current := None, ignored := 0) == s.(current := None)
  {
    hide CleanLine, StartsIgnored, NoteLine, Braces, NoteText, Step;
    NoteStep(s, comment);
    var s' := Step(s, NoteLine(comment));
    if s'.ignored == 0 {
      CloseStep(s');
    } else {
      BraceStep(s');
    }
  }

  /** A comment with two opening braces does not: the importer skips what follows the table. */
  lemma {:induction false} BracesSwallow()
    ensures !NoteKeeps("{{")
  {
    var line, t := "  Note: '{{'", "Note: '{{'";
    assert EscapeString("{{") == "{{" by { assert "{{"[1..] == "{" && "{"[1..] == ""; }
    assert NoteLine("{{") == line && line == "  " + t;
    NoSlash();
    assert '/' !in line by { assert line == "  Note: '" + "{{'"; }
    hide EscapeString;
    CutBehind(line, "");
    assert line + "" == line;
    StripEnds(t, IsSpace);
    StripIndent(t);
    assert CleanLine(line) == t;
    CountNote();
  }

  lemma {:induction false} CountNote()
    ensures Braces("Note: '{{'") == 2
  {
    hide CountChar;
    NoteHead('{');
    NoteHead('}');
    CountPair('{');
    CountPair('}');
    assert "Note: '" + "{{'" == "Note: '{{'";
  }

  lemma {:induction false} NoteHead(c: char)
    requires c in "{}"
    ensures CountChar("Note: '" + "{{'", c) == CountChar("{{'", c)
  {
    hide CountChar;
    assert c !in ['N', 'o', 't', 'e', ':', ' ', '\''];
    assert "Note: '" == ['N', 'o', 't', 'e', ':', ' ', '\''];
    CountBehind("Note: '", "{{'", c);
  }

  lemma {:induction false} CountPair(c: char)
    ensures CountChar("{{'", c) == (if c == '{' then 2 else if c == '\'' then 1 else 0)
  {
    CountCons('{', "{'", c);
    CountCons('{', "'", c);
    CountCons('\'', "", c);
    assert ['{'] + "{'" == "{{'" && ['{'] + "'" == "{'" && ['\''] + "" == "'";
  }

  lemma {:induction false} CountCons(h: char, t: string, c: char)
    ensures CountChar([h] + t, c) == CountChar(t, c) + (if h == c then 1 else 0)
  {
    assert ([h] + t)[1..] == t;
  }

  lemma {:induction false} CountBehind(a: string, b: string, c: char)
    ensures c !in a ==> CountChar(a + b, c) == CountChar(b, c)
  {
    if a == "" {
      assert a + b == b;
    } else {
      assert (a + b)[1..] == a[1..] + b;
      CountBehind(a[1..], b, c);
    }
  }
}
