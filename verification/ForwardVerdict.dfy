/**
 The verdict of the forward-apply validator (backend/app/pg_introspect/forward_ddl.py) on a whole text, said
 without its checks: which texts are accepted, and why the others are refused.
 */
module ForwardVerdict {
  import opened Dicts
  import opened ForwardDdl
  import opened ForwardTokens
  import opened Text

  // ---------------------------------------------------------------- the three kinds of statements

  predicate Reads(tokens: seq<string>, k: nat, word: string) {
    k < |tokens| && Upper(tokens[k]) == word
  }

  /** The capital letter, or the small one, which in ASCII stands 32 behind it. */
  predicate SameLetter(c: char, capital: char) {
    c == capital || (65 <= capital as int <= 90 && c as int == capital as int + 32)
  }

  /** The token spells the word, in small letters or capitals. */
  ghost predicate Spells(t: string, word: string) {
    |t| == |word| && forall i :: 0 <= i < |t| ==> SameLetter(t[i], word[i])
  }

  lemma {:induction false} LetterIff(c: char, capital: char)
    requires capital as int < 97
    ensures UpperChar(c) == capital <==> SameLetter(c, capital)
  {
  }

  lemma {:induction false} UpperEach(t: string)
    ensures |Upper(t)| == |t| && forall i :: 0 <= i < |t| ==> Upper(t)[i] == UpperChar(t[i])
  {
    hide UpperChar;
    if t != "" {
      UpperEach(t[1..]);
    }
  }

  /** Words are read whatever the case of their letters. */
  lemma {:induction false} SpellsIff(t: string, word: string)
    requires forall i :: 0 <= i < |word| ==> word[i] as int < 97
    ensures Upper(t) == word <==> Spells(t, word)
  {
    UpperEach(t);
    hide Upper, UpperChar, SameLetter;
    if |t| == |word| {
      forall i | 0 <= i < |t| ensures UpperChar(t[i]) == word[i] <==> SameLetter(t[i], word[i]) {
        LetterIff(t[i], word[i]);
      }
    }
  }

  /** Names are small letters, digits and underscores, without a digit in front. */
  lemma {:induction false} SnakeCaseIff(t: string)
    ensures IsSnakeCase(t) <==>
      && t != "" && !(48 <= t[0] as int <= 57)
      && forall k :: 0 <= k < |t| ==> t[k] == '_' || 48 <= t[k] as int <= 57 || 97 <= t[k] as int <= 122
  {
  }

  lemma {:induction false} MarkIff(t: string)
    ensures IsMark(t) <==>
      || (|t| == 1 && t[0] in {'(', ')', ',', '.'})
      || (t != "" && forall k :: 0 <= k < |t| ==> 48 <= t[k] as int <= 57)
  {
  }

  /** Where the name of a table or index stands that is created. */
  function CreatedAt(tokens: seq<string>): nat {
    if Reads(tokens, 2, "IF") && Reads(tokens, 3, "NOT") && Reads(tokens, 4, "EXISTS") then 5 else 2
  }

  /** Where the name of a table stands that is altered. */
  function AlteredAt(tokens: seq<string>): nat {
    if Reads(tokens, 2, "IF") && Reads(tokens, 3, "EXISTS") then 4 else 2
  }

  ghost predicate OnlyWords(tokens: seq<string>, allowed: string -> bool) {
    forall k :: 0 <= k < |tokens| ==> IsMark(tokens[k]) || allowed(Upper(tokens[k])) || IsSnakeCase(tokens[k])
  }

  /** CREATE TABLE name ( clause, ... ) and perhaps further words, with balanced parentheses. */
  ghost predicate CreatesTable(tokens: seq<string>) {
    && Reads(tokens, 0, "CREATE") && Reads(tokens, 1, "TABLE")
    && OnlyWords(tokens, IsCreateTableWord)
    && exists index: nat :: NameAt(tokens, CreatedAt(tokens), index) && TableBody(tokens, index)
  }

  ghost predicate TableBody(tokens: seq<string>, index: nat) {
    && index < |tokens| && tokens[index] == "(" && Balanced(tokens[index..])
    && OnlyClauses(if index + 1 < |tokens| then tokens[index + 1..|tokens| - 1] else [])
  }

  /** ALTER TABLE name action, ... */
  ghost predicate AltersTable(tokens: seq<string>) {
    && Reads(tokens, 0, "ALTER") && Reads(tokens, 1, "TABLE")
    && OnlyWords(tokens, IsAlterTableWord)
    && exists index: nat :: NameAt(tokens, AlteredAt(tokens), index) && AlterBody(tokens, index)
  }

  ghost predicate AlterBody(tokens: seq<string>, index: nat) {
    index < |tokens| && OnlyActions(tokens[index..])
  }

  /** CREATE INDEX name ON table [USING method] ( column, ... ) and nothing more. */
  ghost predicate CreatesIndex(tokens: seq<string>) {
    && Reads(tokens, 0, "CREATE") && Reads(tokens, 1, "INDEX")
    && OnlyWords(tokens, IsCreateIndexWord)
    && exists at: nat, columns :: ListAt(tokens, at) && ListOf(tokens, at, columns)
  }

  /** The column list starts at the index. */
  ghost predicate ListAt(tokens: seq<string>, at: nat) {
    var name := CreatedAt(tokens);
    && name < |tokens| && IsSnakeCase(tokens[name]) && Reads(tokens, name + 1, "ON")
    && exists after: nat :: NameAt(tokens, name + 2, after) && BehindTable(tokens, after, at)
  }

  /** At once, or after a method. */
  predicate BehindTable(tokens: seq<string>, after: nat, at: nat) {
    if Reads(tokens, after, "USING")
    then at == after + 2 && (Reads(tokens, after + 1, "BTREE") || Reads(tokens, after + 1, "HASH"))
    else at == after
  }

  ghost predicate ListOf(tokens: seq<string>, at: nat, columns: seq<string>) {
    at <= |tokens| && Names(columns) && tokens[at..] == ["("] + Commas(columns) + [")"]
  }

  /** No word of the statement is a refused keyword. */
  ghost predicate Harmless(tokens: seq<string>) {
    forall k :: 0 <= k < |tokens| ==> IsMark(tokens[k]) || !IsDangerous(Upper(tokens[k]))
  }

  ghost predicate GoodStatement(statement: string) {
    && Supported(statement)
    && var tokens := Tokens(statement);
      Harmless(tokens) && (CreatesTable(tokens) || AltersTable(tokens) || CreatesIndex(tokens))
  }

  // ---------------------------------------------------------------- each kind and its check

  lemma {:induction false} UpperLength(tokens: seq<string>)
    ensures |UpperAll(tokens)| == |tokens| && forall k :: 0 <= k < |tokens| ==> UpperAll(tokens)[k] == Upper(tokens[k])
  {
    hide Upper;
    if tokens != [] {
      UpperLength(tokens[1..]);
    }
  }

  lemma {:induction false} MatchesIff(tokens: seq<string>, index: nat, expected: seq<string>)
    requires expected != []
    ensures Matches(tokens, index, expected) <==>
      forall k :: 0 <= k < |expected| ==> Reads(tokens, index + k, expected[k])
  {
    hide Upper;
    if index + |expected| <= |tokens| {
      var part := tokens[index..index + |expected|];
      UpperLength(part);
      hide UpperAll;
      assert forall k :: 0 <= k < |expected| ==> part[k] == tokens[index + k];
    } else {
      var last := |expected| - 1;
      assert !Reads(tokens, index + last, expected[last]);
    }
  }

  lemma {:induction false} SkipsIff(tokens: seq<string>)
    ensures |tokens| >= 2 ==> SkipWords(tokens, ["IF", "NOT", "EXISTS"]) == CreatedAt(tokens)
    ensures |tokens| >= 2 ==> SkipWords(tokens, ["IF", "EXISTS"]) == AlteredAt(tokens)
  {
    hide Reads, Matches;
    MatchesIff(tokens, 2, ["IF", "NOT", "EXISTS"]);
    MatchesIff(tokens, 2, ["IF", "EXISTS"]);
    var three, two := ["IF", "NOT", "EXISTS"], ["IF", "EXISTS"];
    assert three[0] == "IF" && three[1] == "NOT" && three[2] == "EXISTS" && two[0] == "IF" && two[1] == "EXISTS";
    assert (forall k :: 0 <= k < 3 ==> Reads(tokens, 2 + k, three[k])) <==>
      Reads(tokens, 2, "IF") && Reads(tokens, 3, "NOT") && Reads(tokens, 4, "EXISTS") by {
      assert Reads(tokens, 2 + 0, three[0]) <==> Reads(tokens, 2, "IF");
      assert Reads(tokens, 2 + 1, three[1]) <==> Reads(tokens, 3, "NOT");
      assert Reads(tokens, 2 + 2, three[2]) <==> Reads(tokens, 4, "EXISTS");
    }
    assert (forall k :: 0 <= k < 2 ==> Reads(tokens, 2 + k, two[k])) <==>
      Reads(tokens, 2, "IF") && Reads(tokens, 3, "EXISTS") by {
      assert Reads(tokens, 2 + 0, two[0]) <==> Reads(tokens, 2, "IF");
      assert Reads(tokens, 2 + 1, two[1]) <==> Reads(tokens, 3, "EXISTS");
    }
  }

  lemma {:induction false} TableIff(tokens: seq<string>)
    requires Reads(tokens, 0, "CREATE") && Reads(tokens, 1, "TABLE")
    ensures CheckCreateTable(tokens).None? <==> CreatesTable(tokens)
  {
    TableStatementIff(tokens);
    WordsIff(tokens, IsCreateTableWord, "CREATE TABLE");
    SkipsIff(tokens);
    hide CheckCreateTable, CheckWords, OnlyClauses, NameAt, Balanced, IsCreateTableWord, SkipWords, CreatedAt, Upper;
    forall index: nat ensures TableForm(tokens, index) <==>
      (OnlyWords(tokens, IsCreateTableWord) && NameAt(tokens, CreatedAt(tokens), index) && TableBody(tokens, index))
    {
    }
  }

  lemma {:induction false} AlterIff(tokens: seq<string>)
    requires Reads(tokens, 0, "ALTER") && Reads(tokens, 1, "TABLE")
    ensures CheckAlterTable(tokens).None? <==> AltersTable(tokens)
  {
    AlterStatementIff(tokens);
    WordsIff(tokens, IsAlterTableWord, "ALTER TABLE");
    SkipsIff(tokens);
    hide CheckAlterTable, CheckWords, OnlyActions, NameAt, IsAlterTableWord, SkipWords, AlteredAt, Upper;
    forall index: nat ensures AlterForm(tokens, index) <==>
      (OnlyWords(tokens, IsAlterTableWord) && NameAt(tokens, AlteredAt(tokens), index) && AlterBody(tokens, index))
    {
    }
  }

  lemma {:induction false} ListAtIff(tokens: seq<string>, at: nat)
    requires |tokens| >= 2
    ensures IndexListAt(tokens) == Ok(at) <==> ListAt(tokens, at)
  {
    SkipsIff(tokens);
    hide SkipWords, CreatedAt, NameAt, ParseQualifiedName, Upper, IsSnakeCase;
    var name := CreatedAt(tokens);
    var from := name + 2;
    forall after: nat ensures ParseQualifiedName(tokens, from, "table") == Ok(after) <==> NameAt(tokens, from, after) {
      NameIff(tokens, from, "table", after);
    }
    if name < |tokens| && IsSnakeCase(tokens[name]) && Reads(tokens, name + 1, "ON") {
      var list := ParseQualifiedName(tokens, from, "table");
      if list.Ok? {
        assert NameAt(tokens, from, list.value);
        assert IndexListAt(tokens) == Ok(at) <==> BehindTable(tokens, list.value, at);
        if ListAt(tokens, at) {
          var after: nat :| NameAt(tokens, from, after) && BehindTable(tokens, after, at);
          assert list == Ok(after);
        }
      } else {
        forall after: nat ensures !NameAt(tokens, from, after) {
          assert NameAt(tokens, from, after) ==> list == Ok(after);
        }
      }
    }
  }

  lemma {:induction false} IndexIff(tokens: seq<string>)
    requires Reads(tokens, 0, "CREATE") && Reads(tokens, 1, "INDEX")
    ensures CheckCreateIndex(tokens).None? <==> CreatesIndex(tokens)
  {
    IndexStatementIff(tokens);
    WordsIff(tokens, IsCreateIndexWord, "CREATE INDEX");
    hide CheckCreateIndex, CheckWords, IsCreateIndexWord, IndexListAt, ListAt, Upper, Names, Commas;
    forall at: nat ensures IndexListAt(tokens) == Ok(at) <==> ListAt(tokens, at) {
      ListAtIff(tokens, at);
    }
    if IndexListAt(tokens).Ok? {
      var at := IndexListAt(tokens).value;
      assert ListAt(tokens, at);
      if columns :| Names(columns) && tokens[at..] == ["("] + Commas(columns) + [")"] {
        assert ListOf(tokens, at, columns);
      }
    }
  }

  /** Which check a statement gets, and that it gets none if it is of no kind. */
  lemma {:induction false} StatementIff(tokens: seq<string>)
    ensures CheckStatement(tokens).None? <==>
      Harmless(tokens) && (CreatesTable(tokens) || AltersTable(tokens) || CreatesIndex(tokens))
  {
    NoErrorIff(tokens, CheckKeyword);
    hide CheckCreateTable, CheckAlterTable, CheckCreateIndex, OnlyWords, NameAt, TableBody, AlterBody, ListAt, ListOf,
      Upper, IsDangerous, IsMark, CreatedAt, AlteredAt;
    assert Harmless(tokens) <==> FirstError(tokens, CheckKeyword).None?;
    if Reads(tokens, 0, "CREATE") && Reads(tokens, 1, "TABLE") {
      TableIff(tokens);
    } else if Reads(tokens, 0, "ALTER") && Reads(tokens, 1, "TABLE") {
      AlterIff(tokens);
    } else if Reads(tokens, 0, "CREATE") && Reads(tokens, 1, "INDEX") {
      IndexIff(tokens);
    }
  }

  /** A single statement is accepted exactly if it is a good one, and then returned as its tokens are laid out. */
  lemma {:induction false} GoodStatementIff(statement: string)
    ensures NormalizeOne(statement).Ok? <==> GoodStatement(statement)
    ensures GoodStatement(statement) ==> NormalizeOne(statement) == Ok(Format(Tokens(statement)))
  {
    RendersIff(statement);
    hide Tokens, Supported, Concat, Squeeze, CheckStatement, CreatesTable, AltersTable, CreatesIndex, Harmless, Format;
    StatementIff(Tokens(statement));
    if Tokens(statement) == [] {
      NoTokens();
    }
  }

  lemma {:induction false} NoTokens()
    ensures !CreatesTable([]) && !AltersTable([]) && !CreatesIndex([])
  {
    hide OnlyWords, NameAt, TableBody, AlterBody, ListAt, ListOf;
  }

  // ---------------------------------------------------------------- the whole text

  /** The characters at k and behind it. */
  predicate Pair(sql: string, k: int, a: char, b: char) {
    0 <= k < |sql| - 1 && sql[k] == a && sql[k + 1] == b
  }

  /** Plain characters only, no quotes, and nothing that begins or ends a comment. */
  ghost predicate PlainText(sql: string) {
    && (forall c :: c in sql ==> c as int < 128 && c != '\'' && c != '"' && c != '$')
    && forall k :: !Pair(sql, k, '-', '-') && !Pair(sql, k, '/', '*') && !Pair(sql, k, '*', '/')
  }

  ghost predicate AcceptedText(sql: string) {
    && |sql| <= 262144 && PlainText(sql)
    && 1 <= |Statements(sql)| <= 25
    && forall k :: 0 <= k < |Statements(sql)| ==> GoodStatement(Statements(sql)[k])
  }

  lemma {:induction false} PairIff(sql: string, a: char, b: char)
    ensures Contains(sql, [a, b]) <==> exists k :: Pair(sql, k, a, b)
  {
    forall k ensures OccursAt(sql, [a, b], k) <==> Pair(sql, k, a, b) {
      if 0 <= k < |sql| - 1 {
        assert sql[k..k + 2] == [sql[k], sql[k + 1]];
      }
    }
    if k :| Pair(sql, k, a, b) {
      assert OccursAt(sql, [a, b], k);
    }
  }

  lemma {:induction false} PlainTextIff(sql: string)
    ensures CheckSyntax(sql).None? <==> PlainText(sql)
  {
    PairIff(sql, '-', '-');
    PairIff(sql, '/', '*');
    PairIff(sql, '*', '/');
    assert "--" == ['-', '-'] && "/*" == ['/', '*'] && "*/" == ['*', '/'];
    hide Contains, Pair;
  }

  /** A text with a statement is not blank. */
  lemma {:induction false} BlankHasNone(sql: string)
    requires Strip(sql, IsSpace) == ""
    ensures Statements(sql) == []
  {
    BlankIff(sql);
    assert forall c :: c in sql ==> IsSpace(c);
    assert ';' !in sql;
    SplitWhole(sql, ';');
    assert CleanParts([sql]) == [] + CleanParts([]);
  }

  lemma {:induction false} BlankIff(s: string)
    ensures Strip(s, IsSpace) == "" <==> forall c :: c in s ==> IsSpace(c)
  {
    StripLeftBlank(s);
    var t := StripLeft(s, IsSpace);
    if t != "" {
      StripRightKeeps(t);
    }
  }

  lemma {:induction false} StripLeftBlank(s: string)
    ensures StripLeft(s, IsSpace) == "" <==> forall c :: c in s ==> IsSpace(c)
    ensures StripLeft(s, IsSpace) != "" ==> !IsSpace(StripLeft(s, IsSpace)[0])
    ensures forall c :: c in StripLeft(s, IsSpace) ==> c in s
  {
    if s != "" && IsSpace(s[0]) {
      StripLeftBlank(s[1..]);
      assert s == [s[0]] + s[1..];
    }
  }

  lemma {:induction false} StripRightKeeps(s: string)
    requires s != "" && !IsSpace(s[0])
    ensures StripRight(s, IsSpace) != ""
  {
    if IsSpace(s[|s| - 1]) {
      StripRightKeeps(s[..|s| - 1]);
    }
  }

  lemma {:induction false} NormalizeIff(statements: seq<string>)
    ensures Normalize(statements).Ok? <==> forall k :: 0 <= k < |statements| ==> NormalizeOne(statements[k]).Ok?
  {
    hide NormalizeOne;
    if statements != [] {
      NormalizeIff(statements[1..]);
      assert forall k :: 0 < k < |statements| ==> statements[k] == statements[1..][k - 1];
    }
  }

  /** A text is accepted exactly if it is plain, short, and made of one to twenty-five good statements. */
  lemma {:induction false} AcceptedIff(sql: string)
    ensures Validate(sql).Ok? <==> AcceptedText(sql)
  {
    PlainTextIff(sql);
    NormalizeIff(Statements(sql));
    forall k | 0 <= k < |Statements(sql)|
      ensures NormalizeOne(Statements(sql)[k]).Ok? <==> GoodStatement(Statements(sql)[k])
    {
      GoodStatementIff(Statements(sql)[k]);
    }
    hide Statements, NormalizeOne, Normalize, CheckSyntax, PlainText, GoodStatement, Output, Strip;
    if Strip(sql, IsSpace) == "" {
      BlankHasNone(sql);
    }
  }

  /** What is returned: the statements, each as its tokens are laid out, one a line, with semicolons behind. */
  lemma {:induction false} AcceptedOutput(sql: string) returns (ns: seq<string>)
    requires AcceptedText(sql)
    ensures |ns| == |Statements(sql)| && forall k :: 0 <= k < |ns| ==> ns[k] == Format(Tokens(Statements(sql)[k]))
    ensures Validate(sql) == Ok(Join(ns, ";\n") + ";")
  {
    AcceptedIff(sql);
    Accepted(sql);
    NormalizeEach(Statements(sql));
    ns := Normalize(Statements(sql)).value;
    forall k | 0 <= k < |ns| ensures ns[k] == Format(Tokens(Statements(sql)[k])) {
      GoodStatementIff(Statements(sql)[k]);
    }
    hide Validate, Statements, NormalizeOne, Normalize, GoodStatement, Format, Tokens;
  }

  // ---------------------------------------------------------------- why a text is refused

  /** The faults of a text as a whole, in the order in which they are looked for. */
  lemma {:induction false} TextFaults(sql: string)
    ensures var blank := forall c :: c in sql ==> IsSpace(c);
      var foreign := exists c :: c in sql && c as int >= 128;
      var comment := exists k :: Pair(sql, k, '-', '-') || Pair(sql, k, '/', '*') || Pair(sql, k, '*', '/');
      var quote := '\'' in sql || '"' in sql || '$' in sql;
      && (blank ==> Validate(sql) == Err(EmptyBatch))
      && (!blank && |sql| > 262144 ==> Validate(sql) == Err(TooLarge))
      && (!blank && |sql| <= 262144 && foreign ==> Validate(sql) == Err(NotAscii))
      && (!blank && |sql| <= 262144 && !foreign && comment ==> Validate(sql) == Err(HasComment))
      && (!blank && |sql| <= 262144 && !foreign && !comment && quote ==> Validate(sql) == Err(HasQuote))
      && (|sql| <= 262144 && PlainText(sql) && Statements(sql) == [] ==> Validate(sql) == Err(EmptyBatch))
      && (|sql| <= 262144 && PlainText(sql) && |Statements(sql)| > 25 ==> Validate(sql) == Err(TooManyStatements))
  {
    BlankIff(sql);
    PairIff(sql, '-', '-');
    PairIff(sql, '/', '*');
    PairIff(sql, '*', '/');
    PlainTextIff(sql);
    assert "--" == ['-', '-'] && "/*" == ['/', '*'] && "*/" == ['*', '/'];
    hide Contains, Pair, Statements, Normalize, Strip, PlainText, IsSpace;
    if Strip(sql, IsSpace) == "" {
      BlankHasNone(sql);
    }
  }

  /** With no such fault the first statement that is not good decides. */
  lemma {:induction false} FirstBadStatement(sql: string, k: nat)
    requires |sql| <= 262144 && PlainText(sql) && k < |Statements(sql)| <= 25
    requires !GoodStatement(Statements(sql)[k])
    requires forall j :: 0 <= j < k ==> GoodStatement(Statements(sql)[j])
    ensures NormalizeOne(Statements(sql)[k]).Err?
    ensures Validate(sql) == Err(NormalizeOne(Statements(sql)[k]).error)
  {
    var statements := Statements(sql);
    GoodStatementIff(statements[k]);
    var ns := seq(k, j requires 0 <= j < k => Format(Tokens(statements[j])));
    forall j | 0 <= j < k ensures NormalizeOne(statements[j]) == Ok(ns[j]) {
      GoodStatementIff(statements[j]);
    }
    FirstFailure(statements, ns);
    PlainTextIff(sql);
    hide Statements, NormalizeOne, Normalize, CheckSyntax, PlainText, GoodStatement, Output, Strip;
    if Strip(sql, IsSpace) == "" {
      BlankHasNone(sql);
    }
  }

  /** The faults of a statement before its kind is looked at, and the one of being of no kind. */
  lemma {:induction false} StatementFaults(statement: string)
    ensures !Supported(statement) ==> NormalizeOne(statement) == Err(UnsupportedCharacters)
    ensures Supported(statement) && Tokens(statement) == [] ==> NormalizeOne(statement) == Err(EmptyStatement)
    ensures forall k :: Supported(statement) && FirstRefused(Tokens(statement), k) ==>
      NormalizeOne(statement) == Err(Forbidden(Upper(Tokens(statement)[k])))
    ensures var tokens := Tokens(statement);
      Supported(statement) && tokens != [] && Harmless(tokens)
      && !(Reads(tokens, 0, "CREATE") && (Reads(tokens, 1, "TABLE") || Reads(tokens, 1, "INDEX")))
      && !(Reads(tokens, 0, "ALTER") && Reads(tokens, 1, "TABLE")) ==>
      NormalizeOne(statement) == Err(OtherStatement)
  {
    RendersIff(statement);
    var tokens := Tokens(statement);
    NoErrorIff(tokens, CheckKeyword);
    hide Tokens, Supported, Concat, Squeeze, CheckCreateTable, CheckAlterTable, CheckCreateIndex, Upper, IsDangerous,
      IsMark;
    forall k | FirstRefused(tokens, k) ensures FirstError(tokens, CheckKeyword) == Some(Forbidden(Upper(tokens[k]))) {
      FirstRefusedFound(tokens, k);
    }
    assert Harmless(tokens) <==> FirstError(tokens, CheckKeyword).None?;
  }

  /** The k-th token is the first refused keyword. */
  ghost predicate FirstRefused(tokens: seq<string>, k: int) {
    && 0 <= k < |tokens| && !IsMark(tokens[k]) && IsDangerous(Upper(tokens[k]))
    && forall j :: 0 <= j < k ==> IsMark(tokens[j]) || !IsDangerous(Upper(tokens[j]))
  }

  lemma {:induction false} FirstRefusedFound(tokens: seq<string>, k: int)
    requires FirstRefused(tokens, k)
    ensures FirstError(tokens, CheckKeyword) == Some(Forbidden(Upper(tokens[k])))
  {
    hide Upper, IsDangerous, IsMark;
    if k > 0 {
      FirstRefusedFound(tokens[1..], k - 1);
    }
  }

  // ---------------------------------------------------------------- texts that are accepted

  /** Tokens of a good statement, laid out, come back with a semicolon behind. */
  lemma {:induction false} GoodTokensAccepted(tokens: seq<string>)
    requires AllTokens(tokens) && Harmless(tokens) && |Format(tokens)| <= 262144
    requires CreatesTable(tokens) || AltersTable(tokens) || CreatesIndex(tokens)
    ensures Validate(Format(tokens)) == Ok(Format(tokens) + ";")
  {
    hide CreatesTable, AltersTable, CreatesIndex, Harmless, Validate, AllTokens;
    if tokens == [] {
      NoTokens();
    }
    var n := Format(tokens);
    FormatReadBack(tokens);
    FormatNeat(tokens);
    NeatSupported(n);
    OneStatement(n);
    NeatIsPlain(n);
    hide Format, Tokens, Supported, Neat, Statements, PlainText, GoodStatement;
    assert GoodStatement(n) by { GoodIs(n, tokens); }
    var ns := AcceptedOutput(n);
    assert ns == [n];
    assert Join([n], ";\n") == n;
  }

  lemma {:induction false} GoodIs(n: string, tokens: seq<string>)
    requires Supported(n) && Tokens(n) == tokens && Harmless(tokens)
    requires CreatesTable(tokens) || AltersTable(tokens) || CreatesIndex(tokens)
    ensures GoodStatement(n)
  {
    hide CreatesTable, AltersTable, CreatesIndex, Harmless, Tokens, Supported;
  }

  lemma {:induction false} OneStatement(n: string)
    requires Neat(n)
    ensures Statements(n) == [n]
  {
    NeatStatement(n);
    SplitWhole(n, ';');
    NeatNotEmpty(n);
    hide Neat, Split, Strip;
    assert CleanParts([n]) == [n] + CleanParts([]);
  }

  lemma {:induction false} NeatNotEmpty(n: string)
    requires Neat(n)
    ensures n != ""
  {
  }

  lemma {:induction false} NeatIsPlain(n: string)
    requires Neat(n)
    ensures PlainText(n)
  {
    forall c | c in n ensures c as int < 128 && c !in ['\'', '"', '$', '-', '/', '*'] {
      var k :| 0 <= k < |n| && n[k] == c;
      assert n[k] == ' ' || IsTokenChar(n[k]);
    }
    hide Neat;
  }

  /** A name that may stand for a table, a column or an index. */
  predicate FreeName(name: string) {
    IsSnakeCase(name) && !IsDangerous(Upper(name)) && Upper(name) !in ["IF", "CONSTRAINT", "FOREIGN", "COLUMN", "USING"]
  }

  lemma {:induction false} NameIsToken(name: string)
    requires IsSnakeCase(name)
    ensures IsToken(name) && !IsMark(name)
  {
  }

  /** A token that is no refused keyword and may stand where only the given words are allowed. */
  ghost predicate Fits(t: string, allowed: string -> bool) {
    IsToken(t) && (IsMark(t) || (!IsDangerous(Upper(t)) && (allowed(Upper(t)) || IsSnakeCase(t))))
  }

  ghost predicate AllFit(tokens: seq<string>, allowed: string -> bool) {
    forall k :: 0 <= k < |tokens| ==> Fits(tokens[k], allowed)
  }

  lemma {:induction false} AllFitMeans(tokens: seq<string>, allowed: string -> bool)
    requires AllFit(tokens, allowed)
    ensures AllTokens(tokens) && Harmless(tokens) && OnlyWords(tokens, allowed)
  {
    hide IsToken, IsMark, IsDangerous, IsSnakeCase, Upper;
    forall k | 0 <= k < |tokens| ensures Fits(tokens[k], allowed) {
    }
  }

  lemma {:induction false} NameFits(name: string, allowed: string -> bool)
    requires FreeName(name)
    ensures Fits(name, allowed)
  {
    NameIsToken(name);
    hide IsToken, IsMark, IsDangerous, IsSnakeCase, Upper;
  }

  lemma {:induction false} FreeMeans(name: string)
    requires FreeName(name)
    ensures IsSnakeCase(name) && Upper(name) != "IF"
  {
    hide Upper, IsSnakeCase, IsDangerous;
  }

  lemma {:induction false} MarksFit(allowed: string -> bool)
    ensures Fits("(", allowed) && Fits(")", allowed) && Fits(",", allowed)
  {
    hide IsDangerous, IsSnakeCase, Upper;
  }

  lemma {:induction false} WordFits(w: string, allowed: string -> bool)
    requires IsToken(w) && Upper(w) == w && !IsDangerous(w) && allowed(w)
    ensures Fits(w, allowed)
  {
    hide IsToken, IsMark, IsDangerous, IsSnakeCase, Upper;
  }

  lemma {:induction false} SevenFit(a: string, b: string, c: string, d: string, e: string, f: string, g: string,
    allowed: string -> bool)
    requires Fits(a, allowed) && Fits(b, allowed) && Fits(c, allowed) && Fits(d, allowed)
    requires Fits(e, allowed) && Fits(f, allowed) && Fits(g, allowed)
    ensures AllFit([a, b, c, d, e, f, g], allowed)
  {
    hide Fits;
  }

  lemma {:induction false} UpperCreate()
    ensures Upper("CREATE") == "CREATE" && IsToken("CREATE") && !IsDangerous("CREATE")
    ensures IsCreateTableWord("CREATE") && IsCreateIndexWord("CREATE")
  {
    hide Upper;
    UpperIsFixed("CREATE");
  }

  lemma {:induction false} UpperTable()
    ensures Upper("TABLE") == "TABLE" && IsToken("TABLE") && !IsDangerous("TABLE")
    ensures IsCreateTableWord("TABLE") && IsAlterTableWord("TABLE")
  {
    hide Upper;
    UpperIsFixed("TABLE");
  }

  lemma {:induction false} UpperAlter()
    ensures Upper("ALTER") == "ALTER" && IsToken("ALTER") && !IsDangerous("ALTER") && IsAlterTableWord("ALTER")
  {
    hide Upper;
    UpperIsFixed("ALTER");
  }

  lemma {:induction false} UpperAdd()
    ensures Upper("ADD") == "ADD" && IsToken("ADD") && !IsDangerous("ADD") && IsAlterTableWord("ADD")
  {
    hide Upper;
    UpperIsFixed("ADD");
  }

  lemma {:induction false} UpperColumn()
    ensures Upper("COLUMN") == "COLUMN" && IsToken("COLUMN") && !IsDangerous("COLUMN") && IsAlterTableWord("COLUMN")
  {
    hide Upper;
    UpperIsFixed("COLUMN");
  }

  lemma {:induction false} UpperIndex()
    ensures Upper("INDEX") == "INDEX" && IsToken("INDEX") && !IsDangerous("INDEX") && IsCreateIndexWord("INDEX")
  {
    hide Upper;
    UpperIsFixed("INDEX");
  }

  lemma {:induction false} UpperOn()
    ensures Upper("ON") == "ON" && IsToken("ON") && !IsDangerous("ON") && IsCreateIndexWord("ON")
  {
    hide Upper;
    UpperIsFixed("ON");
  }

  lemma {:induction false} NotIf(tokens: seq<string>)
    requires |tokens| > 2 && Upper(tokens[2]) != "IF"
    ensures CreatedAt(tokens) == 2 && AlteredAt(tokens) == 2
  {
    hide Upper;
  }

  lemma {:induction false} OneWordName(tokens: seq<string>, index: nat)
    requires index + 1 < |tokens| && IsSnakeCase(tokens[index]) && tokens[index + 1] != "."
    ensures NameAt(tokens, index, index + 1)
  {
    hide IsSnakeCase;
  }

  lemma {:induction false} NameIsNoMark(name: string)
    requires IsSnakeCase(name)
    ensures name != "(" && name != ")" && name != "," && name != "."
  {
  }

  // ---- CREATE TABLE table ( column type )

  function NewTable(table: string, column: string, kind: string): seq<string> {
    ["CREATE", "TABLE", table, "(", column, kind, ")"]
  }

  lemma {:induction false} TwoWordsNesting(column: string, kind: string)
    requires column != "(" && column != ")" && column != "," && kind != "(" && kind != ")" && kind != ","
    ensures Balanced(["(", column, kind, ")"])
    ensures forall i, j :: Piece([column, kind], i, j) ==> i == 0 && j == 2
  {
    var body := ["(", column, kind, ")"];
    assert Nesting(body, 0) == 0 && Nesting(body, 1) == 1 && Nesting(body, 2) == 1 && Nesting(body, 3) == 1
      && Nesting(body, 4) == 0;
    hide Nesting;
  }

  lemma {:induction false} ColumnClause(column: string, kind: string)
    requires FreeName(column)
    ensures IsClause([column, kind])
  {
    hide Upper, IsSnakeCase, IsDangerous;
  }

  lemma {:induction false} NewTableBody(table: string, column: string, kind: string)
    requires FreeName(column) && FreeName(kind)
    ensures TableBody(NewTable(table, column, kind), 3)
  {
    NameIsNoMark(column);
    NameIsNoMark(kind);
    TwoWordsNesting(column, kind);
    ColumnClause(column, kind);
    hide FreeName, Balanced, Piece, IsClause;
    var tokens := NewTable(table, column, kind);
    assert tokens[3..] == ["(", column, kind, ")"] && tokens[4..|tokens| - 1] == [column, kind];
    assert [column, kind][0..2] == [column, kind];
  }

  lemma {:induction false} NewTableFits(table: string, column: string, kind: string)
    requires FreeName(table) && FreeName(column) && FreeName(kind)
    ensures AllFit(NewTable(table, column, kind), IsCreateTableWord)
  {
    hide Fits, FreeName, IsToken, IsDangerous, Upper, AllFit, IsCreateTableWord, IsCreateIndexWord, IsAlterTableWord;
    UpperCreate();
    UpperTable();
    WordFits("CREATE", IsCreateTableWord);
    WordFits("TABLE", IsCreateTableWord);
    MarksFit(IsCreateTableWord);
    NameFits(table, IsCreateTableWord);
    NameFits(column, IsCreateTableWord);
    NameFits(kind, IsCreateTableWord);
    SevenFit("CREATE", "TABLE", table, "(", column, kind, ")", IsCreateTableWord);
  }

  lemma {:induction false} NewTableIsGood(table: string, column: string, kind: string)
    requires FreeName(table) && FreeName(column) && FreeName(kind)
    ensures CreatesTable(NewTable(table, column, kind)) && Harmless(NewTable(table, column, kind))
    ensures AllTokens(NewTable(table, column, kind))
  {
    hide FreeName, AllFit, Fits, TableBody, NameAt, OnlyWords, Harmless, AllTokens, CreatedAt, Upper, IsSnakeCase,
      IsToken, IsDangerous, IsCreateTableWord, IsCreateIndexWord, IsAlterTableWord;
    var tokens := NewTable(table, column, kind);
    UpperCreate();
    UpperTable();
    FreeMeans(table);
    NotIf(tokens);
    OneWordName(tokens, 2);
    NewTableBody(table, column, kind);
    NewTableFits(table, column, kind);
    AllFitMeans(tokens, IsCreateTableWord);
    assert NameAt(tokens, CreatedAt(tokens), 3) && TableBody(tokens, 3);
  }

  // ---- ALTER TABLE table ADD COLUMN column type

  function NewColumn(table: string, column: string, kind: string): seq<string> {
    ["ALTER", "TABLE", table, "ADD", "COLUMN", column, kind]
  }

  lemma {:induction false} FourWordsPiece(a: string, b: string, c: string, d: string)
    requires a != "," && b != "," && c != "," && d != ","
    ensures forall i, j :: Piece([a, b, c, d], i, j) ==> i == 0 && j == 4
  {
    hide Nesting;
  }

  lemma {:induction false} NewColumnBody(table: string, column: string, kind: string)
    requires FreeName(column) && FreeName(kind)
    ensures AlterBody(NewColumn(table, column, kind), 3)
  {
    NameIsNoMark(column);
    NameIsNoMark(kind);
    FourWordsPiece("ADD", "COLUMN", column, kind);
    var tokens, action := NewColumn(table, column, kind), ["ADD", "COLUMN", column, kind];
    assert IsAction(action) by {
      UpperAdd();
      UpperColumn();
      hide Upper, IsSnakeCase, IsDangerous, IsToken, IsAlterTableWord;
    }
    hide FreeName, Piece, IsAction;
    assert tokens[3..] == action && action[0..4] == action;
  }

  lemma {:induction false} NewColumnFits(table: string, column: string, kind: string)
    requires FreeName(table) && FreeName(column) && FreeName(kind)
    ensures AllFit(NewColumn(table, column, kind), IsAlterTableWord)
  {
    hide Fits, FreeName, IsToken, IsDangerous, Upper, AllFit, IsCreateTableWord, IsCreateIndexWord, IsAlterTableWord;
    UpperAlter();
    UpperTable();
    UpperAdd();
    UpperColumn();
    WordFits("ALTER", IsAlterTableWord);
    WordFits("TABLE", IsAlterTableWord);
    WordFits("ADD", IsAlterTableWord);
    WordFits("COLUMN", IsAlterTableWord);
    NameFits(table, IsAlterTableWord);
    NameFits(column, IsAlterTableWord);
    NameFits(kind, IsAlterTableWord);
    SevenFit("ALTER", "TABLE", table, "ADD", "COLUMN", column, kind, IsAlterTableWord);
  }

  lemma {:induction false} NewColumnIsGood(table: string, column: string, kind: string)
    requires FreeName(table) && FreeName(column) && FreeName(kind)
    ensures AltersTable(NewColumn(table, column, kind)) && Harmless(NewColumn(table, column, kind))
    ensures AllTokens(NewColumn(table, column, kind))
  {
    hide FreeName, AllFit, Fits, AlterBody, NameAt, OnlyWords, Harmless, AllTokens, AlteredAt, Upper, IsSnakeCase,
      IsToken, IsDangerous, IsCreateTableWord, IsCreateIndexWord, IsAlterTableWord;
    var tokens := NewColumn(table, column, kind);
    UpperAlter();
    UpperTable();
    FreeMeans(table);
    NotIf(tokens);
    OneWordName(tokens, 2);
    NewColumnBody(table, column, kind);
    NewColumnFits(table, column, kind);
    AllFitMeans(tokens, IsAlterTableWord);
    assert NameAt(tokens, AlteredAt(tokens), 3) && AlterBody(tokens, 3);
  }

  // ---- CREATE INDEX index ON table ( column, ... )

  function NewIndex(index: string, table: string, columns: seq<string>): seq<string> {
    ["CREATE", "INDEX", index, "ON", table] + (["("] + Commas(columns) + [")"])
  }

  lemma {:induction false} CommasFit(columns: seq<string>, allowed: string -> bool)
    requires forall c :: c in columns ==> FreeName(c)
    ensures AllFit(Commas(columns), allowed)
  {
    hide FreeName, Fits;
    if columns != [] {
      NameFits(columns[0], allowed);
      MarksFit(allowed);
      CommasFit(columns[1..], allowed);
    }
  }

  lemma {:induction false} NewIndexFits(index: string, table: string, columns: seq<string>)
    requires FreeName(index) && FreeName(table) && forall c :: c in columns ==> FreeName(c)
    ensures AllFit(NewIndex(index, table, columns), IsCreateIndexWord)
  {
    hide Fits, FreeName, IsToken, IsDangerous, Upper, AllFit, Commas, IsCreateTableWord, IsCreateIndexWord;
    UpperCreate();
    UpperIndex();
    UpperOn();
    WordFits("CREATE", IsCreateIndexWord);
    WordFits("INDEX", IsCreateIndexWord);
    WordFits("ON", IsCreateIndexWord);
    MarksFit(IsCreateIndexWord);
    NameFits(index, IsCreateIndexWord);
    NameFits(table, IsCreateIndexWord);
    CommasFit(columns, IsCreateIndexWord);
    FiveThenList("CREATE", "INDEX", index, "ON", table, Commas(columns), IsCreateIndexWord);
  }

  lemma {:induction false} FiveThenList(a: string, b: string, c: string, d: string, e: string, list: seq<string>,
                     allowed: string -> bool)
    requires Fits(a, allowed) && Fits(b, allowed) && Fits(c, allowed) && Fits(d, allowed) && Fits(e, allowed)
    requires AllFit(list, allowed)
    ensures AllFit([a, b, c, d, e] + (["("] + list + [")"]), allowed)
  {
    MarksFit(allowed);
    hide Fits;
  }

  lemma {:induction false} ListFollows(index: string, table: string, columns: seq<string>)
    requires FreeName(index) && FreeName(table) && columns != [] && forall c :: c in columns ==> FreeName(c)
    ensures ListAt(NewIndex(index, table, columns), 5) && ListOf(NewIndex(index, table, columns), 5, columns)
  {
    UpperOn();
    hide Commas, Upper, IsSnakeCase, IsDangerous, IsToken, IsCreateIndexWord;
    var tokens, list := NewIndex(index, table, columns), ["("] + Commas(columns) + [")"];
    assert tokens[5] == "(" && tokens[2] == index && tokens[3] == "ON" && tokens[4] == table;
    assert tokens[5..] == list;
    NotIf(tokens);
    OneWordName(tokens, 4);
    assert BehindTable(tokens, 5, 5) by { ParenthesisIsNoWord(); }
    assert NameAt(tokens, 2 + 2, 5);
    forall k | 0 <= k < |columns| ensures IsSnakeCase(columns[k]) {
      assert columns[k] in columns;
    }
  }

  lemma {:induction false} ParenthesisIsNoWord()
    ensures Upper("(") == "("
  {
  }

  lemma {:induction false} NewIndexIsGood(index: string, table: string, columns: seq<string>)
    requires FreeName(index) && FreeName(table) && columns != [] && forall c :: c in columns ==> FreeName(c)
    ensures CreatesIndex(NewIndex(index, table, columns)) && Harmless(NewIndex(index, table, columns))
    ensures AllTokens(NewIndex(index, table, columns))
  {
    hide FreeName, AllFit, Fits, ListAt, ListOf, OnlyWords, Harmless, AllTokens, Upper, Commas,
      IsToken, IsDangerous, IsCreateTableWord, IsCreateIndexWord, IsAlterTableWord;
    UpperCreate();
    UpperIndex();
    ListFollows(index, table, columns);
    NewIndexFits(index, table, columns);
    var tokens := NewIndex(index, table, columns);
    AllFitMeans(tokens, IsCreateIndexWord);
    assert tokens[0] == "CREATE" && tokens[1] == "INDEX";
  }

  // ---- all three

  ghost predicate IsExample(tokens: seq<string>, table: string, name: string, kind: string, columns: seq<string>) {
    || tokens == NewTable(table, name, kind) || tokens == NewColumn(table, name, kind)
    || tokens == NewIndex(name, table, columns)
  }

  /** Each kind of statement is accepted, and returned as it is laid out. */
  lemma {:induction false} EachKindIsAccepted(tokens: seq<string>, table: string, name: string, kind: string,
    columns: seq<string>)
    requires FreeName(table) && FreeName(name) && FreeName(kind) && columns != []
    requires forall c :: c in columns ==> FreeName(c)
    requires IsExample(tokens, table, name, kind, columns) && |Format(tokens)| <= 262144
    ensures Validate(Format(tokens)) == Ok(Format(tokens) + ";")
  {
    hide FreeName, NewTable, NewColumn, NewIndex, CreatesTable, AltersTable, CreatesIndex, Harmless, AllTokens, Format,
      Validate;
    NewTableIsGood(table, name, kind);
    NewColumnIsGood(table, name, kind);
    NewIndexIsGood(name, table, columns);
    GoodTokensAccepted(tokens);
  }

  // ---- how they are laid out

  lemma {:induction false} LaidNext(last: char, t: string, rest: seq<string>)
    ensures Laid(last, [t] + rest) == Gap(last, t) + (t + Laid(Last(t), rest))
  {
    hide Gap, Last;
    assert ([t] + rest)[1..] == rest;
  }

  /** A word stands behind a blank, unless an opening parenthesis or a dot is before it. */
  lemma {:induction false} WordLaid(last: char, name: string, rest: seq<string>)
    requires IsSnakeCase(name) && last != '(' && last != '.'
    ensures Laid(last, [name] + rest) == " " + (name + Laid(Last(name), rest))
    ensures Last(name) != '(' && Last(name) != '.'
  {
    NameIsNoMark(name);
    LaidNext(last, name, rest);
    hide Laid;
  }

  lemma {:induction false} FirstLaid(name: string, rest: seq<string>)
    requires IsSnakeCase(name)
    ensures Laid('(', [name] + rest) == name + Laid(Last(name), rest)
    ensures Last(name) != '(' && Last(name) != '.'
  {
    LaidNext('(', name, rest);
    hide Laid;
  }

  lemma {:induction false} OpenLaid(last: char, rest: seq<string>)
    requires last != '(' && last != '.'
    ensures Laid(last, ["("] + rest) == " (" + Laid('(', rest)
  {
    LaidNext(last, "(", rest);
    hide Laid;
    assert " " + ("(" + Laid('(', rest)) == " (" + Laid('(', rest);
  }

  lemma {:induction false} CloseLaid(last: char)
    ensures Laid(last, [")"]) == ")"
  {
    LaidNext(last, ")", []);
    assert [")"] + [] == [")"];
  }

  lemma {:induction false} HeadLaid(rest: seq<string>)
    ensures Format(["CREATE", "TABLE"] + rest) == "CREATE TABLE" + Laid('E', rest)
  {
    var tokens := ["CREATE", "TABLE"] + rest;
    assert tokens[0] == "CREATE" && tokens[1..] == ["TABLE"] + rest;
    assert Last("CREATE") == 'E' && Last("TABLE") == 'E' && Gap('E', "TABLE") == " ";
    LaidNext('E', "TABLE", rest);
    hide Laid, Gap, Last;
    assert "CREATE" + (" " + ("TABLE" + Laid('E', rest))) == "CREATE TABLE" + Laid('E', rest);
  }

  lemma {:induction false} NewTableText(table: string, column: string, kind: string)
    requires IsSnakeCase(table) && IsSnakeCase(column) && IsSnakeCase(kind)
    ensures Format(NewTable(table, column, kind)) ==
      "CREATE TABLE" + (" " + (table + (" (" + (column + (" " + (kind + ")"))))))
  {
    hide Laid, IsSnakeCase, Last;
    var tokens := NewTable(table, column, kind);
    HeadLaid([table, "(", column, kind, ")"]);
    assert tokens == ["CREATE", "TABLE"] + [table, "(", column, kind, ")"];
    assert [table] + ["(", column, kind, ")"] == [table, "(", column, kind, ")"];
    WordLaid('E', table, ["(", column, kind, ")"]);
    assert ["("] + [column, kind, ")"] == ["(", column, kind, ")"];
    OpenLaid(Last(table), [column, kind, ")"]);
    assert [column] + [kind, ")"] == [column, kind, ")"];
    FirstLaid(column, [kind, ")"]);
    assert [kind] + [")"] == [kind, ")"];
    WordLaid(Last(column), kind, [")"]);
    CloseLaid(Last(kind));
  }
}
