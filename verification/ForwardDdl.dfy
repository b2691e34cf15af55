/**
 The forward-apply validator (backend/app/pg_introspect/forward_ddl.py): which batches it accepts, and that the
 text it returns says the same as the text it was given and is accepted unchanged.
 */
module ForwardDdl {
  import opened Dicts
  import opened Text
  import opened ForwardTokens

  datatype Result<T> = Ok(value: T) | Err(error: Error)

  datatype Error =
    | EmptyBatch
    | TooLarge
    | NotAscii
    | HasComment
    | HasQuote
    | UnsupportedCharacters
    | EmptyStatement
    | TooManyStatements
    | Forbidden(word: string)
    | OtherStatement
    | MissingIdentifier(kind: string)
    | NotSnakeCase(kind: string, token: string)
    | UnsupportedToken(kind: string, token: string)
    | NoColumns
    | Unbalanced
    | EmptyClause
    | ForeignKey
    | NoAction
    | OtherAction
    | NoTo
    | TrailingTokens
    | NoOn
    | UnsupportedMethod
    | NotAColumn

  const MAX_SIZE := 262144

  const MAX_STATEMENTS := 25

  // ---------------------------------------------------------------- words

  function UpperChar(c: char): char {
    if 'a' <= c <= 'z' then c - 'a' + 'A' else c
  }

  function Upper(t: string): string {
    if t == [] then [] else [UpperChar(t[0])] + Upper(t[1..])
  }

  predicate IsDangerous(word: string) {
    word in {
      "ANALYZE", "CALL", "CHECK", "COPY", "DATABASE", "DELETE", "DO", "DROP", "EXECUTE", "EXTENSION", "FUNCTION",
      "DEFAULT", "GRANT", "INSERT", "LISTEN", "LOCK", "MERGE", "NOTIFY", "POLICY", "PROCEDURE", "REFRESH", "REVOKE",
      "ROLE", "RULE", "SCHEMA", "SECURITY", "SELECT", "SERVER", "SYSTEM", "TEMP", "TEMPORARY", "TRIGGER", "TRUNCATE",
      "UNLOGGED", "UPDATE", "USER", "VACUUM", "VIEW"}
  }

  predicate IsTypeWord(word: string) {
    word in {
      "BIGINT", "BOOLEAN", "CHAR", "DATE", "DECIMAL", "DOUBLE", "INTEGER", "JSONB", "NUMERIC", "PRECISION", "REAL",
      "SERIAL", "SMALLINT", "TEXT", "TIME", "TIMESTAMP", "TIMESTAMPTZ", "UUID", "VARCHAR", "WITH", "ZONE"}
  }

  predicate IsConstraintWord(word: string) {
    word in {"CONSTRAINT", "KEY", "NOT", "NULL", "PRIMARY", "REFERENCES", "UNIQUE"}
  }

  predicate IsCreateTableWord(word: string) {
    IsTypeWord(word) || IsConstraintWord(word) || word in {"CREATE", "EXISTS", "IF", "NOT", "TABLE"}
  }

  predicate IsAlterTableWord(word: string) {
    || IsTypeWord(word) || IsConstraintWord(word)
    || word in {"ADD", "ALTER", "COLUMN", "EXISTS", "IF", "RENAME", "TABLE", "TO"}
  }

  predicate IsCreateIndexWord(word: string) {
    word in {"BTREE", "CREATE", "EXISTS", "HASH", "IF", "INDEX", "NOT", "ON", "USING"}
  }

  predicate IsNumber(t: string) {
    t != [] && forall k :: 0 <= k < |t| ==> IsDigit(t[k])
  }

  /** A token that is not a word. */
  predicate IsMark(t: string) {
    t == "(" || t == ")" || t == "," || t == "." || IsNumber(t)
  }

  predicate IsSnakeCase(t: string) {
    && t != []
    && ('a' <= t[0] <= 'z' || t[0] == '_')
    && forall k :: 0 <= k < |t| ==> 'a' <= t[k] <= 'z' || t[k] == '_' || IsDigit(t[k])
  }

  // ---------------------------------------------------------------- checks on tokens

  /** The first error that a check finds, in order. */
  function FirstError<T>(xs: seq<T>, check: T -> Option<Error>): Option<Error> {
    if xs == [] then None
    else if check(xs[0]).Some? then check(xs[0])
    else FirstError(xs[1..], check)
  }

  lemma {:induction false} NoErrorIff<T>(xs: seq<T>, check: T -> Option<Error>)
    ensures FirstError(xs, check).None? <==> forall k :: 0 <= k < |xs| ==> check(xs[k]).None?
  {
    if xs != [] {
      NoErrorIff(xs[1..], check);
      assert forall k :: 0 < k < |xs| ==> xs[k] == xs[1..][k - 1];
    }
  }

  function CheckKeyword(t: string): Option<Error> {
    if !IsMark(t) && IsDangerous(Upper(t)) then Some(Forbidden(Upper(t))) else None
  }

  function CheckWord(t: string, allowed: string -> bool, kind: string): Option<Error> {
    if !IsMark(t) && !allowed(Upper(t)) && !IsSnakeCase(t) then Some(UnsupportedToken(kind, t)) else None
  }

  function CheckWords(tokens: seq<string>, allowed: string -> bool, kind: string): Option<Error> {
    FirstError(tokens, (t: string) => CheckWord(t, allowed, kind))
  }

  function ParseIdentifier(tokens: seq<string>, index: nat, kind: string): (r: Result<nat>)
    ensures r.Ok? ==> index < |tokens| && r.value == index + 1
  {
    if index >= |tokens| then Err(MissingIdentifier(kind))
    else if !IsSnakeCase(tokens[index]) then Err(NotSnakeCase(kind, tokens[index]))
    else Ok(index + 1)
  }

  function ParseQualifiedName(tokens: seq<string>, index: nat, kind: string): (r: Result<nat>)
    ensures r.Ok? ==> index < r.value <= |tokens|
  {
    match ParseIdentifier(tokens, index, kind)
    case Err(e) => Err(e)
    case Ok(after) =>
      if after < |tokens| && tokens[after] == "." then ParseIdentifier(tokens, after + 1, kind) else Ok(after)
  }

  function UpperAll(tokens: seq<string>): seq<string> {
    if tokens == [] then [] else [Upper(tokens[0])] + UpperAll(tokens[1..])
  }

  predicate Matches(tokens: seq<string>, index: nat, expected: seq<string>) {
    index + |expected| <= |tokens| && UpperAll(tokens[index..index + |expected|]) == expected
  }

  /** Opening minus closing parentheses among the first `k` tokens. */
  function Nesting(tokens: seq<string>, k: nat): int
    requires k <= |tokens|
  {
    if k == 0 then 0
    else Nesting(tokens, k - 1) + (if tokens[k - 1] == "(" then 1 else if tokens[k - 1] == ")" then -1 else 0)
  }

  predicate Balanced(tokens: seq<string>) {
    Nesting(tokens, |tokens|) == 0 && forall k :: 0 <= k <= |tokens| ==> Nesting(tokens, k) >= 0
  }

  method ExpectBalancedParentheses(tokens: seq<string>) returns (ok: bool)
    ensures ok <==> Balanced(tokens)
  {
    var depth := 0;
    for i := 0 to |tokens|
      invariant depth == Nesting(tokens, i)
      invariant forall k :: 0 <= k <= i ==> Nesting(tokens, k) >= 0
    {
      if tokens[i] == "(" {
        depth := depth + 1;
      } else if tokens[i] == ")" {
        depth := depth - 1;
        if depth < 0 {
          assert Nesting(tokens, i + 1) < 0;
          return false;
        }
      }
    }
    return depth == 0;
  }

  function Deeper(depth: int, t: string): int {
    if t == "(" then depth + 1 else if t == ")" then depth - 1 else depth
  }

  /** The rest of the tokens cut at the commas outside parentheses; `current` is the chunk being collected. */
  function Chunks(tokens: seq<string>, depth: int, current: seq<string>): seq<seq<string>>
    decreases |tokens|
  {
    if tokens == [] then [current]
    else
      var d := Deeper(depth, tokens[0]);
      if tokens[0] == "," && d == 0 then [current] + Chunks(tokens[1..], d, [])
      else Chunks(tokens[1..], d, current + [tokens[0]])
  }

  lemma {:induction false} ChunksStep(tokens: seq<string>, i: nat, depth: int, current: seq<string>,
    chunks: seq<seq<string>>)
    requires i < |tokens|
    ensures var d := Deeper(depth, tokens[i]);
      chunks + Chunks(tokens[i..], depth, current) ==
        if tokens[i] == "," && d == 0 then chunks + [current] + Chunks(tokens[i + 1..], d, [])
        else chunks + Chunks(tokens[i + 1..], d, current + [tokens[i]])
  {
    assert tokens[i..][1..] == tokens[i + 1..];
    hide Deeper;
  }

  method SplitTopLevelCommas(tokens: seq<string>) returns (chunks: seq<seq<string>>)
    ensures chunks == Chunks(tokens, 0, [])
  {
    chunks := [];
    var current, depth := [], 0;
    assert chunks + Chunks(tokens[0..], depth, current) == Chunks(tokens, 0, []);
    hide Chunks;
    for i := 0 to |tokens|
      invariant chunks + Chunks(tokens[i..], depth, current) == Chunks(tokens, 0, [])
    {
      var token := tokens[i];
      ChunksStep(tokens, i, depth, current, chunks);
      if token == "(" {
        depth := depth + 1;
      } else if token == ")" {
        depth := depth - 1;
      }
      if token == "," && depth == 0 {
        chunks := chunks + [current];
        current := [];
      } else {
        current := current + [token];
      }
    }
    ChunksEnd(depth, current);
    chunks := chunks + [current];
  }

  // ---------------------------------------------------------------- clauses

  function CheckTableClause(tokens: seq<string>): Option<Error> {
    if tokens == [] then Some(EmptyClause)
    else
      var first := Upper(tokens[0]);
      if first == "CONSTRAINT" then ErrorOf(ParseIdentifier(tokens, 1, "constraint"))
      else if first == "PRIMARY" || first == "UNIQUE" then None
      else if first == "FOREIGN" then Some(ForeignKey)
      else ErrorOf(ParseIdentifier(tokens, 0, "column"))
  }

  function ErrorOf<T>(r: Result<T>): Option<Error> {
    match r
    case Ok(_) => None
    case Err(e) => Some(e)
  }

  /** An identifier that must be the last token. */
  function CheckLastIdentifier(tokens: seq<string>, index: nat, kind: string): Option<Error> {
    match ParseIdentifier(tokens, index, kind)
    case Err(e) => Some(e)
    case Ok(end) => if end != |tokens| then Some(TrailingTokens) else None
  }

  function CheckAction(tokens: seq<string>): Option<Error> {
    if tokens == [] then Some(EmptyClause)
    else
      var first := Upper(tokens[0]);
      if first == "ADD" then
        var index := if 1 < |tokens| && Upper(tokens[1]) == "COLUMN" then 2 else 1;
        ErrorOf(ParseIdentifier(tokens, index, "column"))
      else if first == "RENAME" && Matches(tokens, 1, ["COLUMN"]) then
        match ParseIdentifier(tokens, 2, "column")
        case Err(e) => Some(e)
        case Ok(after) =>
          if after >= |tokens| || Upper(tokens[after]) != "TO" then Some(NoTo)
          else CheckLastIdentifier(tokens, after + 1, "column")
      else if first == "RENAME" && Matches(tokens, 1, ["TO"]) then CheckLastIdentifier(tokens, 2, "table")
      else Some(OtherAction)
  }

  function CheckIndexColumn(chunk: seq<string>): Option<Error> {
    if |chunk| != 1 then Some(NotAColumn) else ErrorOf(ParseIdentifier(chunk, 0, "index column"))
  }

  // ---------------------------------------------------------------- statements

  /** What lies between the parenthesis at `index` and the last token. */
  function Inside(tokens: seq<string>, index: nat): seq<string> {
    if index + 1 <= |tokens| - 1 then tokens[index + 1..|tokens| - 1] else []
  }

  function SkipWords(tokens: seq<string>, words: seq<string>): nat {
    if Matches(tokens, 2, words) then 2 + |words| else 2
  }

  function CheckCreateTable(tokens: seq<string>): Option<Error> {
    match ParseQualifiedName(tokens, SkipWords(tokens, ["IF", "NOT", "EXISTS"]), "table")
    case Err(e) => Some(e)
    case Ok(index) =>
      if index >= |tokens| || tokens[index] != "(" then Some(NoColumns)
      else if !Balanced(tokens[index..]) then Some(Unbalanced)
      else
        match CheckWords(tokens, IsCreateTableWord, "CREATE TABLE")
        case Some(e) => Some(e)
        case None => FirstError(Chunks(Inside(tokens, index), 0, []), CheckTableClause)
  }

  function CheckAlterTable(tokens: seq<string>): Option<Error> {
    match ParseQualifiedName(tokens, SkipWords(tokens, ["IF", "EXISTS"]), "table")
    case Err(e) => Some(e)
    case Ok(index) =>
      if index >= |tokens| then Some(NoAction)
      else
        match CheckWords(tokens, IsAlterTableWord, "ALTER TABLE")
        case Some(e) => Some(e)
        case None => FirstError(Chunks(tokens[index..], 0, []), CheckAction)
  }

  /** Where the column list of an index must start: after the name, the table and the method, if one is given. */
  function IndexListAt(tokens: seq<string>): (r: Result<nat>)
    ensures r.Ok? ==> r.value <= |tokens|
  {
    match ParseIdentifier(tokens, SkipWords(tokens, ["IF", "NOT", "EXISTS"]), "index")
    case Err(e) => Err(e)
    case Ok(on) =>
      if on >= |tokens| || Upper(tokens[on]) != "ON" then Err(NoOn)
      else
        match ParseQualifiedName(tokens, on + 1, "table")
        case Err(e) => Err(e)
        case Ok(index) =>
          if index < |tokens| && Upper(tokens[index]) == "USING" then
            if index + 1 >= |tokens| || (Upper(tokens[index + 1]) != "BTREE" && Upper(tokens[index + 1]) != "HASH")
            then Err(UnsupportedMethod)
            else Ok(index + 2)
          else Ok(index)
  }

  function CheckCreateIndex(tokens: seq<string>): Option<Error> {
    match IndexListAt(tokens)
    case Err(e) => Some(e)
    case Ok(index) =>
      if index >= |tokens| || tokens[index] != "(" then Some(NoColumns)
      else if !Balanced(tokens[index..]) then Some(Unbalanced)
      else
        match CheckWords(tokens, IsCreateIndexWord, "CREATE INDEX")
        case Some(e) => Some(e)
        case None => FirstError(Chunks(Inside(tokens, index), 0, []), CheckIndexColumn)
  }

  function CheckStatement(tokens: seq<string>): Option<Error> {
    match FirstError(tokens, CheckKeyword)
    case Some(e) => Some(e)
    case None =>
      if |tokens| < 2 then Some(OtherStatement)
      else if Upper(tokens[0]) == "CREATE" && Upper(tokens[1]) == "TABLE" then CheckCreateTable(tokens)
      else if Upper(tokens[0]) == "ALTER" && Upper(tokens[1]) == "TABLE" then CheckAlterTable(tokens)
      else if Upper(tokens[0]) == "CREATE" && Upper(tokens[1]) == "INDEX" then CheckCreateIndex(tokens)
      else Some(OtherStatement)
  }

  function Tokenize(statement: string): Result<seq<string>> {
    var tokens := Tokens(statement);
    if Concat(tokens) != Squeeze(statement) then Err(UnsupportedCharacters)
    else if tokens == [] then Err(EmptyStatement)
    else Ok(tokens)
  }

  function NormalizeOne(statement: string): Result<string> {
    match Tokenize(statement)
    case Err(e) => Err(e)
    case Ok(tokens) =>
      match CheckStatement(tokens)
      case Some(e) => Err(e)
      case None => Ok(Format(tokens))
  }

  function Normalize(statements: seq<string>): Result<seq<string>> {
    if statements == [] then Ok([])
    else
      match NormalizeOne(statements[0])
      case Err(e) => Err(e)
      case Ok(n) =>
        match Normalize(statements[1..])
        case Err(e) => Err(e)
        case Ok(ns) => Ok([n] + ns)
  }

  function CheckSyntax(sql: string): Option<Error> {
    if exists c | c in sql :: c as int >= 128 then Some(NotAscii)
    else if Contains(sql, "--") || Contains(sql, "/*") || Contains(sql, "*/") then Some(HasComment)
    else if '\'' in sql || '"' in sql || '$' in sql then Some(HasQuote)
    else None
  }

  /** The whole validator. */
  function Validate(sql: string): Result<string> {
    if Strip(sql, IsSpace) == "" then Err(EmptyBatch)
    else if |sql| > MAX_SIZE then Err(TooLarge)
    else
      match CheckSyntax(sql)
      case Some(e) => Err(e)
      case None =>
        var statements := Statements(sql);
        if statements == [] then Err(EmptyBatch)
        else if |statements| > MAX_STATEMENTS then Err(TooManyStatements)
        else
          match Normalize(statements)
          case Err(e) => Err(e)
          case Ok(ns) => Ok(Output(ns))
  }

  // ---------------------------------------------------------------- the loops of the validator

  /** Goes through a list and stops at the first error. */
  method CheckEach<T>(xs: seq<T>, check: T -> Option<Error>) returns (e: Option<Error>)
    ensures e == FirstError(xs, check)
  {
    for i := 0 to |xs|
      invariant FirstError(xs[i..], check) == FirstError(xs, check)
    {
      assert xs[i..][1..] == xs[i + 1..];
      if check(xs[i]).Some? {
        return check(xs[i]);
      }
    }
    return None;
  }

  method ValidateCreateTable(tokens: seq<string>) returns (e: Option<Error>)
    ensures e == CheckCreateTable(tokens)
  {
    var name := ParseQualifiedName(tokens, SkipWords(tokens, ["IF", "NOT", "EXISTS"]), "table");
    if name.Err? {
      return Some(name.error);
    }
    var index := name.value;
    if index >= |tokens| || tokens[index] != "(" {
      return Some(NoColumns);
    }
    var balanced := ExpectBalancedParentheses(tokens[index..]);
    if !balanced {
      return Some(Unbalanced);
    }
    e := CheckEach(tokens, (t: string) => CheckWord(t, IsCreateTableWord, "CREATE TABLE"));
    if e.Some? {
      return;
    }
    var clauses := SplitTopLevelCommas(Inside(tokens, index));
    e := CheckEach(clauses, CheckTableClause);
  }

  method ValidateAlterTable(tokens: seq<string>) returns (e: Option<Error>)
    ensures e == CheckAlterTable(tokens)
  {
    var name := ParseQualifiedName(tokens, SkipWords(tokens, ["IF", "EXISTS"]), "table");
    if name.Err? {
      return Some(name.error);
    }
    var index := name.value;
    if index >= |tokens| {
      return Some(NoAction);
    }
    e := CheckEach(tokens, (t: string) => CheckWord(t, IsAlterTableWord, "ALTER TABLE"));
    if e.Some? {
      return;
    }
    var actions := SplitTopLevelCommas(tokens[index..]);
    e := CheckEach(actions, CheckAction);
  }

  method ValidateCreateIndex(tokens: seq<string>) returns (e: Option<Error>)
    ensures e == CheckCreateIndex(tokens)
  {
    var list := IndexListAt(tokens);
    if list.Err? {
      return Some(list.error);
    }
    var index := list.value;
    if index >= |tokens| || tokens[index] != "(" {
      return Some(NoColumns);
    }
    var balanced := ExpectBalancedParentheses(tokens[index..]);
    if !balanced {
      return Some(Unbalanced);
    }
    e := CheckEach(tokens, (t: string) => CheckWord(t, IsCreateIndexWord, "CREATE INDEX"));
    if e.Some? {
      return;
    }
    var columns := SplitTopLevelCommas(Inside(tokens, index));
    e := CheckEach(columns, CheckIndexColumn);
  }

  method ValidateStatement(statement: string) returns (r: Result<string>)
    ensures r == NormalizeOne(statement)
  {
    var tokenized := Tokenize(statement);
    if tokenized.Err? {
      return Err(tokenized.error);
    }
    var tokens := tokenized.value;
    var e := CheckEach(tokens, CheckKeyword);
    if e.None? {
      if |tokens| < 2 {
        e := Some(OtherStatement);
      } else if Upper(tokens[0]) == "CREATE" && Upper(tokens[1]) == "TABLE" {
        e := ValidateCreateTable(tokens);
      } else if Upper(tokens[0]) == "ALTER" && Upper(tokens[1]) == "TABLE" {
        e := ValidateAlterTable(tokens);
      } else if Upper(tokens[0]) == "CREATE" && Upper(tokens[1]) == "INDEX" {
        e := ValidateCreateIndex(tokens);
      } else {
        e := Some(OtherStatement);
      }
    }
    if e.Some? {
      return Err(e.value);
    }
    TokensAreTokens(statement);
    assert forall k :: 0 <= k < |tokens| ==> IsToken(tokens[k]);
    var sql := FormatStatement(tokens);
    return Ok(sql);
  }

  method ValidateForwardDdl(sql: string) returns (r: Result<string>)
    ensures r == Validate(sql)
  {
    hide NormalizeOne, Statements, CheckSyntax;
    if Strip(sql, IsSpace) == "" {
      return Err(EmptyBatch);
    }
    if |sql| > MAX_SIZE {
      return Err(TooLarge);
    }
    if CheckSyntax(sql).Some? {
      return Err(CheckSyntax(sql).value);
    }
    var statements := Statements(sql);
    if statements == [] {
      return Err(EmptyBatch);
    }
    if |statements| > MAX_STATEMENTS {
      return Err(TooManyStatements);
    }
    var normalized := [];
    for i := 0 to |statements|
      invariant |normalized| == i
      invariant forall k :: 0 <= k < i ==> NormalizeOne(statements[k]) == Ok(normalized[k])
    {
      var n := ValidateStatement(statements[i]);
      if n.Err? {
        FirstFailure(statements, normalized);
        return Err(n.error);
      }
      normalized := normalized + [n.value];
    }
    NormalizeAll(statements, normalized);
    return Ok(Output(normalized));
  }

  lemma {:induction false} FirstFailure(statements: seq<string>, ns: seq<string>)
    requires |ns| < |statements| && NormalizeOne(statements[|ns|]).Err?
    requires forall k :: 0 <= k < |ns| ==> NormalizeOne(statements[k]) == Ok(ns[k])
    ensures Normalize(statements) == Err(NormalizeOne(statements[|ns|]).error)
  {
    hide NormalizeOne;
    if ns != [] {
      FirstFailure(statements[1..], ns[1..]);
    }
  }

  lemma {:induction false} NormalizeAll(statements: seq<string>, ns: seq<string>)
    requires |statements| == |ns| && forall k :: 0 <= k < |ns| ==> NormalizeOne(statements[k]) == Ok(ns[k])
    ensures Normalize(statements) == Ok(ns)
  {
    hide NormalizeOne;
    if ns != [] {
      NormalizeAll(statements[1..], ns[1..]);
      assert ns == [ns[0]] + ns[1..];
    }
  }

  // ---------------------------------------------------------------- the output is accepted unchanged

  lemma {:induction false} NeatSupported(n: string)
    requires Neat(n)
    ensures Supported(n)
  {
  }

  /** A normalised statement has the tokens of the original and is its own normal form. */
  lemma {:induction false} NormalFormKeepsTokens(statement: string)
    requires NormalizeOne(statement).Ok?
    ensures var n := NormalizeOne(statement).value;
      Neat(n) && Tokens(n) == Tokens(statement) && NormalizeOne(n) == Ok(n)
  {
    var tokens := Tokens(statement);
    TokensAreTokens(statement);
    hide Neat, Supported, Tokens, Squeeze, Concat, Format, CheckStatement;
    var n := Format(tokens);
    FormatReadBack(tokens);
    FormatNeat(tokens);
    NeatSupported(n);
    RendersIff(n);
  }

  lemma {:induction false} NormalizeEach(statements: seq<string>)
    requires Normalize(statements).Ok?
    ensures var ns := Normalize(statements).value;
      |ns| == |statements| && forall k :: 0 <= k < |ns| ==> NormalizeOne(statements[k]) == Ok(ns[k])
  {
    hide NormalizeOne;
    if statements != [] {
      NormalizeEach(statements[1..]);
      assert forall k :: 0 < k < |statements| ==> statements[k] == statements[1..][k - 1];
    }
  }

  predicate IsOutputChar(c: char) {
    IsTokenChar(c) || c == ' ' || c == ';' || c == '\n'
  }

  lemma {:induction false} JoinChars(ns: seq<string>)
    requires forall k :: 0 <= k < |ns| ==> Neat(ns[k])
    ensures forall c :: c in Join(ns, ";\n") ==> IsOutputChar(c)
  {
    if ns != [] {
      assert Neat(ns[0]);
      JoinChars(ns[1..]);
    }
  }

  lemma {:induction false} OutputSyntax(s: string)
    requires forall c :: c in s ==> IsOutputChar(c)
    ensures CheckSyntax(s) == None
  {
    hide IsOutputChar;
    assert !IsOutputChar('-') && !IsOutputChar('*') && !IsOutputChar('/') by { Refused(); }
    assert !IsOutputChar('\'') && !IsOutputChar('"') && !IsOutputChar('$') by { Refused(); }
    forall t: string, k | t in {"--", "/*", "*/"} ensures !OccursAt(s, t, k) {
      if 0 <= k <= |s| - |t| {
        assert s[k] == s[k..k + |t|][0];
      }
    }
    forall c | c in s ensures (c as int) < 128 {
      AsciiOutput(c);
    }
  }

  lemma {:induction false} Refused()
    ensures forall c :: c in {'-', '*', '/', '\'', '"', '$'} ==> !IsOutputChar(c)
  {
  }

  lemma {:induction false} AsciiOutput(c: char)
    requires IsOutputChar(c)
    ensures (c as int) < 128
  {
  }

  lemma {:induction false} OutputNotBlank(ns: seq<string>)
    requires ns != [] && Neat(ns[0])
    ensures Strip(Output(ns), IsSpace) != ""
  {
    var out := Output(ns);
    assert out[|out| - 1] == ';' && out[0] == ns[0][0];
    hide Output, Join;
  }

  lemma {:induction false} Accepted(sql: string)
    requires Validate(sql).Ok?
    ensures var ns := Normalize(Statements(sql));
      && ns.Ok? && Validate(sql).value == Output(ns.value)
      && 0 < |Statements(sql)| <= MAX_STATEMENTS
  {
    hide Normalize, Statements, Output, CheckSyntax, Strip;
  }

  /** The returned text has as many statements as the given one, each with the same tokens. */
  lemma {:induction false} OutputKeepsTokens(sql: string)
    requires Validate(sql).Ok?
    ensures var out := Validate(sql).value;
      && |Statements(out)| == |Statements(sql)|
      && forall k :: 0 <= k < |Statements(sql)| ==> Tokens(Statements(out)[k]) == Tokens(Statements(sql)[k])
  {
    var statements := Statements(sql);
    Accepted(sql);
    hide Validate, Statements, Normalize;
    var ns := Normalize(statements).value;
    NormalizeEach(statements);
    forall k | 0 <= k < |ns| ensures Neat(ns[k]) && Tokens(ns[k]) == Tokens(statements[k]) {
      NormalFormKeepsTokens(statements[k]);
    }
    hide NormalizeOne, Neat;
    OutputReadBack(ns);
  }

  /** Validating the returned text returns it unchanged if and only if it is within the size limit. */
  lemma {:induction false} OutputIsFixed(sql: string)
    requires Validate(sql).Ok?
    ensures var out := Validate(sql).value;
      Validate(out) == if |out| <= MAX_SIZE then Ok(out) else Err(TooLarge)
  {
    var statements := Statements(sql);
    Accepted(sql);
    hide Statements, Normalize;
    var ns := Normalize(statements).value;
    NormalizeEach(statements);
    forall k | 0 <= k < |ns| ensures Neat(ns[k]) && NormalizeOne(ns[k]) == Ok(ns[k]) {
      NormalFormKeepsTokens(statements[k]);
    }
    hide NormalizeOne;
    JoinChars(ns);
    OutputNotBlank(ns);
    OutputReadBack(ns);
    NormalizeAll(ns, ns);
    var out := Output(ns);
    forall c | c in out ensures IsOutputChar(c) {
    }
    OutputSyntax(out);
    hide Neat, Output, CheckSyntax, Strip;
  }

  // ---------------------------------------------------------------- what an accepted statement looks like

  function Rejoin(chunks: seq<seq<string>>): seq<string> {
    if chunks == [] then []
    else if |chunks| == 1 then chunks[0]
    else chunks[0] + [","] + Rejoin(chunks[1..])
  }

  /** Cutting at commas loses nothing. */
  lemma {:induction false} ChunksRejoin(tokens: seq<string>, depth: int, current: seq<string>)
    ensures Chunks(tokens, depth, current) != [] && Rejoin(Chunks(tokens, depth, current)) == current + tokens
    decreases |tokens|
  {
    if tokens != [] {
      var d := Deeper(depth, tokens[0]);
      assert tokens == [tokens[0]] + tokens[1..];
      if tokens[0] == "," && d == 0 {
        var rest := Chunks(tokens[1..], d, []);
        ChunksRejoin(tokens[1..], d, []);
        hide Chunks;
        assert ([current] + rest)[1..] == rest;
      } else {
        ChunksRejoin(tokens[1..], d, current + [tokens[0]]);
        hide Chunks, Rejoin;
      }
    }
  }

  /** A list of columns as tokens. */
  function Commas(columns: seq<string>): seq<string> {
    if columns == [] then []
    else if |columns| == 1 then [columns[0]]
    else [columns[0], ","] + Commas(columns[1..])
  }

  ghost predicate Names(columns: seq<string>) {
    columns != [] && forall k :: 0 <= k < |columns| ==> IsSnakeCase(columns[k])
  }

  lemma {:induction false} ChunksOfCommas(columns: seq<string>)
    requires Names(columns)
    ensures FirstError(Chunks(Commas(columns), 0, []), CheckIndexColumn).None?
  {
    var c, tokens := columns[0], Commas(columns);
    assert IsSnakeCase(c);
    assert c != "(" && c != ")" && c != ",";
    assert [] + [c] == [c];
    if |columns| == 1 {
      assert tokens[1..] == [];
      assert Chunks(tokens, 0, []) == Chunks([], 0, [c]) == [[c]];
    } else {
      var rest := Commas(columns[1..]);
      assert tokens[1..] == [","] + rest && ([","] + rest)[1..] == rest;
      assert Chunks(tokens, 0, []) == Chunks([","] + rest, 0, [c]) == [[c]] + Chunks(rest, 0, []);
      ChunksOfCommas(columns[1..]);
      assert ([[c]] + Chunks(rest, 0, []))[1..] == Chunks(rest, 0, []);
    }
  }

  lemma {:induction false} CommasOfChunks(chunks: seq<seq<string>>) returns (columns: seq<string>)
    requires chunks != [] && FirstError(chunks, CheckIndexColumn).None?
    ensures Names(columns) && Rejoin(chunks) == Commas(columns)
  {
    var c := chunks[0][0];
    assert chunks[0] == [c] && IsSnakeCase(c);
    if |chunks| == 1 {
      columns := [c];
    } else {
      var rest := CommasOfChunks(chunks[1..]);
      columns := [c] + rest;
      assert columns[1..] == rest;
    }
  }

  lemma {:induction false} NestingOfCommas(columns: seq<string>, tail: seq<string>, k: nat)
    requires Names(columns) && k <= |Commas(columns)|
    ensures Nesting(["("] + Commas(columns) + tail, k + 1) == 1
  {
    var tokens := ["("] + Commas(columns) + tail;
    if k > 0 {
      NestingOfCommas(columns, tail, k - 1);
      CommasHaveNoParens(columns);
      assert tokens[k] == Commas(columns)[k - 1];
      hide Commas;
    } else {
      assert tokens[0] == "(";
    }
  }

  lemma {:induction false} CommasHaveNoParens(columns: seq<string>)
    requires Names(columns)
    ensures forall k :: 0 <= k < |Commas(columns)| ==> Commas(columns)[k] != "(" && Commas(columns)[k] != ")"
  {
    assert IsSnakeCase(columns[0]);
    if |columns| > 1 {
      CommasHaveNoParens(columns[1..]);
    }
  }

  lemma {:induction false} ListIsBalanced(columns: seq<string>)
    requires Names(columns)
    ensures Balanced(["("] + Commas(columns) + [")"])
  {
    var tokens := ["("] + Commas(columns) + [")"];
    forall k | 0 <= k < |tokens| ensures Nesting(tokens, k) >= 0 {
      if k > 0 {
        NestingOfCommas(columns, [")"], k - 1);
      }
    }
    NestingOfCommas(columns, [")"], |Commas(columns)|);
    assert tokens[|tokens| - 1] == ")";
  }

  lemma {:induction false} ListIsClosed(rest: seq<string>, columns: seq<string>)
    requires rest != [] && rest[0] == "(" && Balanced(rest) && Names(columns) && Inside(rest, 0) == Commas(columns)
    ensures rest == ["("] + Commas(columns) + [")"]
  {
    assert Commas(columns) != [];
    var last := rest[|rest| - 1];
    assert rest == ["("] + Commas(columns) + [last];
    NestingOfCommas(columns, [last], |Commas(columns)|);
    hide Commas;
  }

  /** The list of an accepted index is exactly one parenthesised list of plain names, and nothing follows it. */
  lemma {:induction false} IndexListIff(rest: seq<string>)
    requires rest != [] && rest[0] == "("
    ensures Balanced(rest) && FirstError(Chunks(Inside(rest, 0), 0, []), CheckIndexColumn).None? <==>
      exists columns | Names(columns) :: rest == ["("] + Commas(columns) + [")"]
  {
    hide CheckIndexColumn;
    if columns :| Names(columns) && rest == ["("] + Commas(columns) + [")"] {
      assert Inside(rest, 0) == Commas(columns);
      ChunksOfCommas(columns);
      ListIsBalanced(columns);
    }
    if Balanced(rest) && FirstError(Chunks(Inside(rest, 0), 0, []), CheckIndexColumn).None? {
      ChunksRejoin(Inside(rest, 0), 0, []);
      var columns := CommasOfChunks(Chunks(Inside(rest, 0), 0, []));
      assert Inside(rest, 0) == Commas(columns);
      ListIsClosed(rest, columns);
    }
  }

  /** A statement that creates an index is accepted only with its whole list, and only of plain names. */
  lemma {:induction false} IndexStatementIff(tokens: seq<string>)
    ensures CheckCreateIndex(tokens).None? <==>
      && IndexListAt(tokens).Ok?
      && CheckWords(tokens, IsCreateIndexWord, "CREATE INDEX").None?
      && exists columns | Names(columns) :: tokens[IndexListAt(tokens).value..] == ["("] + Commas(columns) + [")"]
  {
    hide IndexListAt, CheckWords, IsCreateIndexWord, Balanced, Chunks, CheckIndexColumn, Commas;
    if IndexListAt(tokens).Ok? {
      var index := IndexListAt(tokens).value;
      var rest := tokens[index..];
      if rest != [] && rest[0] == "(" {
        assert Inside(rest, 0) == Inside(tokens, index);
        IndexListIff(rest);
      }
    }
  }

  /** No accepted statement contains a refused keyword. */
  lemma {:induction false} NoDangerousKeyword(statement: string, k: nat)
    requires NormalizeOne(statement).Ok? && k < |Tokens(statement)|
    ensures IsMark(Tokens(statement)[k]) || !IsDangerous(Upper(Tokens(statement)[k]))
  {
    NoErrorIff(Tokens(statement), CheckKeyword);
    hide IsDangerous, IsMark, CheckCreateTable, CheckAlterTable, CheckCreateIndex, Tokens, Concat, Squeeze, Upper;
    assert CheckKeyword(Tokens(statement)[k]).None?;
  }

  lemma {:induction false} FirstErrorAppend<T>(xs: seq<T>, x: T, check: T -> Option<Error>)
    requires FirstError(xs, check).None? && check(x).None?
    ensures FirstError(xs + [x], check).None?
  {
    NoErrorIff(xs, check);
    NoErrorIff(xs + [x], check);
  }

  /** A token that is no comma ends up in the last chunk. */
  lemma {:induction false} ChunksAppend(tokens: seq<string>, t: string, depth: int, current: seq<string>)
    requires t != ","
    ensures var before, after := Chunks(tokens, depth, current), Chunks(tokens + [t], depth, current);
      && before != [] && after == before[..|before| - 1] + [before[|before| - 1] + [t]]
    decreases |tokens|
  {
    if tokens == [] {
      assert (tokens + [t])[1..] == [];
    } else {
      var d := Deeper(depth, tokens[0]);
      assert (tokens + [t])[1..] == tokens[1..] + [t];
      if tokens[0] == "," && d == 0 {
        ChunksAppend(tokens[1..], t, d, []);
      } else {
        ChunksAppend(tokens[1..], t, d, current + [tokens[0]]);
      }
    }
  }

  lemma {:induction false} ClauseAppend(clause: seq<string>, t: string)
    requires CheckTableClause(clause).None?
    ensures CheckTableClause(clause + [t]).None?
  {
    hide IsSnakeCase;
  }

  lemma {:induction false} ClausesAppend(tokens: seq<string>, t: string)
    requires t != "," && FirstError(Chunks(tokens, 0, []), CheckTableClause).None?
    ensures FirstError(Chunks(tokens + [t], 0, []), CheckTableClause).None?
  {
    var chunks := Chunks(tokens, 0, []);
    ChunksAppend(tokens, t, 0, []);
    NoErrorIff(chunks, CheckTableClause);
    ClauseAppend(chunks[|chunks| - 1], t);
    hide Chunks, CheckTableClause;
    NoErrorIff(Chunks(tokens + [t], 0, []), CheckTableClause);
  }

  lemma {:induction false} NestingAppend(tokens: seq<string>, w: string, k: nat)
    requires k <= |tokens|
    ensures Nesting(tokens + [w], k) == Nesting(tokens, k)
  {
    if k > 0 {
      NestingAppend(tokens, w, k - 1);
    }
  }

  lemma {:induction false} BalancedAppend(tokens: seq<string>, w: string)
    requires Balanced(tokens) && w != "(" && w != ")"
    ensures Balanced(tokens + [w])
  {
    forall k | 0 <= k <= |tokens| ensures Nesting(tokens + [w], k) == Nesting(tokens, k) {
      NestingAppend(tokens, w, k);
    }
  }

  lemma {:induction false} NameAppend(tokens: seq<string>, index: nat, w: string)
    requires var r := ParseQualifiedName(tokens, index, "table"); r.Ok? && r.value < |tokens|
    ensures ParseQualifiedName(tokens + [w], index, "table") == ParseQualifiedName(tokens, index, "table")
  {
    hide IsSnakeCase;
  }

  lemma {:induction false} SkipAppend(tokens: seq<string>, w: string)
    requires |tokens| >= 5
    ensures SkipWords(tokens + [w], ["IF", "NOT", "EXISTS"]) == SkipWords(tokens, ["IF", "NOT", "EXISTS"])
  {
    assert (tokens + [w])[2..5] == tokens[2..5];
  }

  lemma {:induction false} BalancedIsLong(tokens: seq<string>)
    requires Balanced(tokens) && tokens != [] && tokens[0] == "("
    ensures |tokens| >= 2
  {
    assert Nesting(tokens, 1) == 1;
  }

  lemma {:induction false} InsideAppend(tokens: seq<string>, w: string, index: nat)
    requires index + 2 <= |tokens|
    ensures (tokens + [w])[index..] == tokens[index..] + [w]
    ensures Inside(tokens + [w], index) == Inside(tokens, index) + [tokens[|tokens| - 1]]
  {
    assert tokens == tokens[..|tokens| - 1] + [tokens[|tokens| - 1]];
  }

  /** What is known of an accepted statement. */
  lemma {:induction false} TableAccepted(tokens: seq<string>) returns (index: nat)
    requires CheckCreateTable(tokens).None?
    ensures ParseQualifiedName(tokens, SkipWords(tokens, ["IF", "NOT", "EXISTS"]), "table") == Ok(index)
    ensures 3 <= index && index + 2 <= |tokens| && tokens[index] == "(" && Balanced(tokens[index..])
    ensures CheckWords(tokens, IsCreateTableWord, "CREATE TABLE").None?
    ensures FirstError(Chunks(Inside(tokens, index), 0, []), CheckTableClause).None?
  {
    hide CheckWords, Balanced, Chunks, CheckTableClause, IsCreateTableWord, Matches, ParseIdentifier;
    index := ParseQualifiedName(tokens, SkipWords(tokens, ["IF", "NOT", "EXISTS"]), "table").value;
    BalancedIsLong(tokens[index..]);
  }

  /** Nothing has to end a statement that creates a table: one more word after its column list is let through. */
  lemma {:induction false} TrailingWordAccepted(tokens: seq<string>, w: string)
    requires CheckCreateTable(tokens).None? && tokens[|tokens| - 1] != "," && IsSnakeCase(w)
    ensures CheckCreateTable(tokens + [w]).None?
  {
    hide Chunks, CheckTableClause, IsCreateTableWord, Balanced, CheckWords, ParseQualifiedName, SkipWords, Inside;
    var all := tokens + [w];
    var index := TableAccepted(tokens);
    assert w != "(" && w != ")";
    SkipAppend(tokens, w);
    NameAppend(tokens, SkipWords(tokens, ["IF", "NOT", "EXISTS"]), w);
    BalancedAppend(tokens[index..], w);
    WordsAppend(tokens, w);
    InsideAppend(tokens, w, index);
    ClausesAppend(Inside(tokens, index), tokens[|tokens| - 1]);
  }

  lemma {:induction false} WordsAppend(tokens: seq<string>, w: string)
    requires CheckWords(tokens, IsCreateTableWord, "CREATE TABLE").None? && IsSnakeCase(w)
    ensures CheckWords(tokens + [w], IsCreateTableWord, "CREATE TABLE").None?
  {
    hide IsCreateTableWord;
    FirstErrorAppend(tokens, w, (t: string) => CheckWord(t, IsCreateTableWord, "CREATE TABLE"));
  }

  // ---------------------------------------------------------------- which commas separate

  /** A comma at which the validator cuts: as many parentheses were opened as closed before it. */
  predicate CutAt(tokens: seq<string>, k: int) {
    0 <= k < |tokens| && tokens[k] == "," && Nesting(tokens, k) == 0
  }

  /** The tokens from `i` to `j` lie between two cuts, or the ends of the list. */
  predicate Piece(tokens: seq<string>, i: int, j: int) {
    && 0 <= i <= j <= |tokens|
    && (i == 0 || CutAt(tokens, i - 1)) && (j == |tokens| || CutAt(tokens, j))
    && forall k :: i <= k < j ==> !CutAt(tokens, k)
  }

  ghost predicate EachPiece(tokens: seq<string>, from: int, check: seq<string> -> Option<Error>) {
    forall i, j | from <= i && Piece(tokens, i, j) :: check(tokens[i..j]).None?
  }

  lemma {:induction false} LastPiece(tokens: seq<string>, i: int, check: seq<string> -> Option<Error>)
    requires 0 <= i && Piece(tokens, i, |tokens|)
    ensures EachPiece(tokens, i, check) <==> check(tokens[i..]).None?
  {
    assert tokens[i..|tokens|] == tokens[i..];
    forall a, b | i <= a && Piece(tokens, a, b) ensures a == i && b == |tokens| {
      assert a > i ==> CutAt(tokens, a - 1);
    }
  }

  lemma {:induction false} OnePiece(tokens: seq<string>, i: int, k: int, check: seq<string> -> Option<Error>)
    requires CutAt(tokens, k) && Piece(tokens, i, k)
    ensures EachPiece(tokens, i, check) <==> check(tokens[i..k]).None? && EachPiece(tokens, k + 1, check)
  {
    hide Nesting;
    forall a, b | i <= a && Piece(tokens, a, b) ensures (a == i && b == k) || a >= k + 1 {
      assert i < a <= k ==> CutAt(tokens, a - 1);
      assert a == i && b > k ==> !CutAt(tokens, k);
      assert a == i && b < k ==> CutAt(tokens, b);
    }
  }

  lemma {:induction false} ChunksEnd(depth: int, current: seq<string>)
    ensures Chunks([], depth, current) == [current]
  {
  }

  lemma {:induction false} ChunksNext(tokens: seq<string>, i: int, k: int)
    requires 0 <= i <= k < |tokens|
    ensures Chunks(tokens[k..], Nesting(tokens, k), tokens[i..k]) ==
      if CutAt(tokens, k) then [tokens[i..k]] + Chunks(tokens[k + 1..], Nesting(tokens, k + 1), tokens[k + 1..k + 1])
      else Chunks(tokens[k + 1..], Nesting(tokens, k + 1), tokens[i..k + 1])
  {
    assert tokens[k..][1..] == tokens[k + 1..] && tokens[k..][0] == tokens[k];
    assert Deeper(Nesting(tokens, k), tokens[k]) == Nesting(tokens, k + 1);
    assert tokens[i..k] + [tokens[k]] == tokens[i..k + 1] && tokens[k + 1..k + 1] == [];
    hide Nesting, Deeper;
  }

  lemma {:induction false} FirstErrorCons(chunk: seq<string>, rest: seq<seq<string>>,
    check: seq<string> -> Option<Error>)
    ensures FirstError([chunk] + rest, check).None? <==> check(chunk).None? && FirstError(rest, check).None?
  {
    assert ([chunk] + rest)[1..] == rest;
  }

  /** The chunks from a token on are the pieces from the start of the current one on. */
  lemma {:induction false} ChunksArePieces(tokens: seq<string>, i: int, k: int, check: seq<string> -> Option<Error>)
    requires 0 <= i <= k <= |tokens| && (i == 0 || CutAt(tokens, i - 1))
    requires forall m :: i <= m < k ==> !CutAt(tokens, m)
    ensures FirstError(Chunks(tokens[k..], Nesting(tokens, k), tokens[i..k]), check).None? <==>
      EachPiece(tokens, i, check)
    decreases |tokens| - k
  {
    hide EachPiece, FirstError, Chunks, Nesting, CutAt;
    if k == |tokens| {
      assert tokens[k..] == [] && tokens[i..k] == tokens[i..];
      ChunksEnd(Nesting(tokens, k), tokens[i..]);
      LastPiece(tokens, i, check);
      FirstErrorCons(tokens[i..], [], check);
      NoErrors(check);
      assert [tokens[i..]] + [] == [tokens[i..]];
    } else {
      ChunksNext(tokens, i, k);
      if CutAt(tokens, k) {
        OnePiece(tokens, i, k, check);
        ChunksArePieces(tokens, k + 1, k + 1, check);
        FirstErrorCons(tokens[i..k], Chunks(tokens[k + 1..], Nesting(tokens, k + 1), tokens[k + 1..k + 1]), check);
      } else {
        ChunksArePieces(tokens, i, k + 1, check);
      }
    }
  }

  lemma {:induction false} NoErrors(check: seq<string> -> Option<Error>)
    ensures FirstError([], check).None?
  {
  }

  /** A check of every chunk is a check of every piece. */
  lemma {:induction false} EveryPieceIsChecked(tokens: seq<string>, check: seq<string> -> Option<Error>)
    ensures FirstError(Chunks(tokens, 0, []), check).None? <==> EachPiece(tokens, 0, check)
  {
    hide EachPiece;
    ChunksArePieces(tokens, 0, 0, check);
    assert tokens[0..] == tokens && tokens[0..0] == [];
  }

  // ---------------------------------------------------------------- which statements are accepted

  /** ADD [COLUMN] name ..., RENAME COLUMN a TO b, or RENAME TO a. */
  predicate IsAction(a: seq<string>) {
    || (|a| > 1 && Upper(a[0]) == "ADD" && Upper(a[1]) != "COLUMN" && IsSnakeCase(a[1]))
    || (|a| > 2 && Upper(a[0]) == "ADD" && Upper(a[1]) == "COLUMN" && IsSnakeCase(a[2]))
    || (|a| == 5 && Upper(a[0]) == "RENAME" && Upper(a[1]) == "COLUMN" && IsSnakeCase(a[2])
        && Upper(a[3]) == "TO" && IsSnakeCase(a[4]))
    || (|a| == 3 && Upper(a[0]) == "RENAME" && Upper(a[1]) == "TO" && IsSnakeCase(a[2]))
  }

  /** A named constraint, a key, or a column. */
  predicate IsClause(c: seq<string>) {
    && c != []
    && if Upper(c[0]) == "CONSTRAINT" then |c| > 1 && IsSnakeCase(c[1])
       else Upper(c[0]) == "PRIMARY" || Upper(c[0]) == "UNIQUE" || (Upper(c[0]) != "FOREIGN" && IsSnakeCase(c[0]))
  }

  lemma {:induction false} OneWordMatches(tokens: seq<string>, index: nat, word: string)
    ensures Matches(tokens, index, [word]) <==> index < |tokens| && Upper(tokens[index]) == word
  {
    hide Upper;
    if index < |tokens| {
      assert tokens[index..index + 1] == [tokens[index]];
      assert UpperAll([tokens[index]]) == [Upper(tokens[index])];
    }
  }

  lemma {:induction false} ActionIff(a: seq<string>)
    ensures CheckAction(a).None? <==> IsAction(a)
  {
    hide Upper, IsSnakeCase, Matches;
    OneWordMatches(a, 1, "COLUMN");
    OneWordMatches(a, 1, "TO");
  }

  lemma {:induction false} ClauseIff(c: seq<string>)
    ensures CheckTableClause(c).None? <==> IsClause(c)
  {
    hide Upper, IsSnakeCase;
  }

  /** The name at an index: one word, or two with a dot between them. */
  predicate NameAt(tokens: seq<string>, index: nat, after: nat) {
    && index < |tokens| && IsSnakeCase(tokens[index])
    && if index + 1 < |tokens| && tokens[index + 1] == "." then
         after == index + 3 <= |tokens| && IsSnakeCase(tokens[index + 2])
       else after == index + 1
  }

  lemma {:induction false} NameIff(tokens: seq<string>, index: nat, kind: string, after: nat)
    ensures ParseQualifiedName(tokens, index, kind) == Ok(after) <==> NameAt(tokens, index, after)
  {
    hide IsSnakeCase;
  }

  lemma {:induction false} WordsIff(tokens: seq<string>, allowed: string -> bool, kind: string)
    ensures CheckWords(tokens, allowed, kind).None? <==>
      forall k :: 0 <= k < |tokens| ==> IsMark(tokens[k]) || allowed(Upper(tokens[k])) || IsSnakeCase(tokens[k])
  {
    hide Upper, IsSnakeCase, IsMark;
    NoErrorIff(tokens, (t: string) => CheckWord(t, allowed, kind));
  }

  lemma {:induction false} PiecesFromStart(tokens: seq<string>, check: seq<string> -> Option<Error>)
    ensures EachPiece(tokens, 0, check) <==> forall i, j | Piece(tokens, i, j) :: check(tokens[i..j]).None?
  {
  }

  /** Every piece between two cuts is a known action. */
  ghost predicate OnlyActions(tokens: seq<string>) {
    forall i, j | Piece(tokens, i, j) :: IsAction(tokens[i..j])
  }

  ghost predicate OnlyClauses(tokens: seq<string>) {
    forall i, j | Piece(tokens, i, j) :: IsClause(tokens[i..j])
  }

  lemma {:induction false} ActionsIff(tokens: seq<string>)
    ensures FirstError(Chunks(tokens, 0, []), CheckAction).None? <==> OnlyActions(tokens)
  {
    hide Chunks, CheckAction, IsAction, Piece, EachPiece;
    EveryPieceIsChecked(tokens, CheckAction);
    PiecesFromStart(tokens, CheckAction);
    forall i, j | Piece(tokens, i, j) ensures 0 <= i <= j <= |tokens| {
      PieceBounds(tokens, i, j);
    }
    forall action: seq<string> ensures CheckAction(action).None? <==> IsAction(action) {
      ActionIff(action);
    }
  }

  lemma {:induction false} ClausesIff(tokens: seq<string>)
    ensures FirstError(Chunks(tokens, 0, []), CheckTableClause).None? <==> OnlyClauses(tokens)
  {
    hide Chunks, CheckTableClause, IsClause, Piece, EachPiece;
    EveryPieceIsChecked(tokens, CheckTableClause);
    PiecesFromStart(tokens, CheckTableClause);
    forall i, j | Piece(tokens, i, j) ensures 0 <= i <= j <= |tokens| {
      PieceBounds(tokens, i, j);
    }
    forall clause: seq<string> ensures CheckTableClause(clause).None? <==> IsClause(clause) {
      ClauseIff(clause);
    }
  }

  lemma {:induction false} PieceBounds(tokens: seq<string>, i: int, j: int)
    requires Piece(tokens, i, j)
    ensures 0 <= i <= j <= |tokens|
  {
  }

  /** A table's name, and behind it, at `index`, nothing but known words and known actions. */
  ghost predicate AlterForm(tokens: seq<string>, index: nat) {
    && NameAt(tokens, SkipWords(tokens, ["IF", "EXISTS"]), index) && index < |tokens|
    && CheckWords(tokens, IsAlterTableWord, "ALTER TABLE").None?
    && OnlyActions(tokens[index..])
  }

  /** ALTER TABLE is accepted exactly with a name, only known words, and only known actions between the cuts. */
  lemma {:induction false} AlterStatementIff(tokens: seq<string>)
    ensures CheckAlterTable(tokens).None? <==> exists index: nat :: AlterForm(tokens, index)
  {
    hide SkipWords, CheckWords, IsAlterTableWord, Chunks, CheckAction, OnlyActions, NameAt, ParseQualifiedName;
    var skip := SkipWords(tokens, ["IF", "EXISTS"]);
    var name := ParseQualifiedName(tokens, skip, "table");
    forall index: nat ensures name == Ok(index) <==> NameAt(tokens, skip, index) {
      NameIff(tokens, skip, "table", index);
    }
    if name.Ok? && name.value < |tokens| {
      ActionsIff(tokens[name.value..]);
      assert CheckAlterTable(tokens).None? <==> AlterForm(tokens, name.value);
    }
    forall index: nat | AlterForm(tokens, index) ensures name == Ok(index) && index < |tokens| {
    }
  }

  /** A table's name, and behind it, at `index`, balanced parentheses around nothing but known clauses. */
  ghost predicate TableForm(tokens: seq<string>, index: nat) {
    && NameAt(tokens, SkipWords(tokens, ["IF", "NOT", "EXISTS"]), index)
    && index < |tokens| && tokens[index] == "(" && Balanced(tokens[index..])
    && CheckWords(tokens, IsCreateTableWord, "CREATE TABLE").None?
    && OnlyClauses(Inside(tokens, index))
  }

  /** CREATE TABLE is accepted exactly with a name, balanced parentheses, only known words, and only known clauses. */
  lemma {:induction false} TableStatementIff(tokens: seq<string>)
    ensures CheckCreateTable(tokens).None? <==> exists index: nat :: TableForm(tokens, index)
  {
    hide SkipWords, CheckWords, IsCreateTableWord, Chunks, CheckTableClause, OnlyClauses, NameAt, ParseQualifiedName;
    hide Balanced, Inside;
    var skip := SkipWords(tokens, ["IF", "NOT", "EXISTS"]);
    var name := ParseQualifiedName(tokens, skip, "table");
    forall index: nat ensures name == Ok(index) <==> NameAt(tokens, skip, index) {
      NameIff(tokens, skip, "table", index);
    }
    if name.Ok? && name.value < |tokens| {
      ClausesIff(Inside(tokens, name.value));
      assert CheckCreateTable(tokens).None? <==> TableForm(tokens, name.value);
    }
    forall index: nat | TableForm(tokens, index) ensures name == Ok(index) && index < |tokens| {
    }
  }

  // ---------------------------------------------------------------- what a stray parenthesis hides

  /** How many groups are open after `k` tokens when a closing parenthesis without a partner closes nothing. */
  function Open(tokens: seq<string>, k: nat): nat
    requires k <= |tokens|
  {
    if k == 0 then 0
    else
      var d := Open(tokens, k - 1);
      if tokens[k - 1] == "(" then d + 1 else if tokens[k - 1] == ")" && d > 0 then d - 1 else d
  }

  /** How many of the first `k` tokens are closing parentheses without a partner. */
  function Strays(tokens: seq<string>, k: nat): nat
    requires k <= |tokens|
  {
    if k == 0 then 0
    else Strays(tokens, k - 1) + if tokens[k - 1] == ")" && Open(tokens, k - 1) == 0 then 1 else 0
  }

  lemma {:induction false} NestingIsOpenLessStrays(tokens: seq<string>, k: nat)
    requires k <= |tokens|
    ensures Nesting(tokens, k) == Open(tokens, k) - Strays(tokens, k)
  {
    if k > 0 {
      NestingIsOpenLessStrays(tokens, k - 1);
    }
  }

  lemma {:induction false} StraysGrow(tokens: seq<string>, j: nat, k: nat)
    requires j <= k <= |tokens|
    ensures Strays(tokens, j) <= Strays(tokens, k)
    decreases k - j
  {
    if j < k {
      StraysGrow(tokens, j, k - 1);
    }
  }

  /** A comma outside all parentheses. */
  predicate Separator(tokens: seq<string>, k: int) {
    0 <= k < |tokens| && tokens[k] == "," && Open(tokens, k) == 0
  }

  /** A separator goes unnoticed exactly when a stray closing parenthesis comes before it. */
  lemma {:induction false} MissedIff(tokens: seq<string>, k: int)
    requires Separator(tokens, k)
    ensures !CutAt(tokens, k) <==> Strays(tokens, k) > 0
  {
    NestingIsOpenLessStrays(tokens, k);
  }

  /**
   A comma that no stray parenthesis precedes, or that lies in some groups, but not in as many as there are strays.
   */
  predicate Undisturbed(tokens: seq<string>, k: int) {
    0 <= k < |tokens| && tokens[k] == "," && Strays(tokens, k) > 0 ==>
      Open(tokens, k) > 0 && Open(tokens, k) != Strays(tokens, k)
  }

  /** The cuts are the separators exactly when every comma is undisturbed. */
  lemma {:induction false} CutsAreSeparatorsIff(tokens: seq<string>)
    ensures (forall k :: CutAt(tokens, k) <==> Separator(tokens, k)) <==> forall k :: Undisturbed(tokens, k)
  {
    hide CutAt, Separator, Undisturbed;
    forall k ensures (CutAt(tokens, k) <==> Separator(tokens, k)) <==> Undisturbed(tokens, k) {
      UndisturbedIff(tokens, k);
    }
  }

  lemma {:induction false} UndisturbedIff(tokens: seq<string>, k: int)
    ensures (CutAt(tokens, k) <==> Separator(tokens, k)) <==> Undisturbed(tokens, k)
  {
    hide Nesting, Open, Strays;
    if 0 <= k < |tokens| {
      NestingIsOpenLessStrays(tokens, k);
    }
  }

  /** With balanced parentheses the cuts are the separators, so every action between separators is checked. */
  lemma {:induction false} BalancedCutsAreSeparators(tokens: seq<string>, k: int)
    requires Balanced(tokens)
    ensures CutAt(tokens, k) <==> Separator(tokens, k)
  {
    if 0 <= k < |tokens| {
      BalancedHasNoStrays(tokens, k);
      NestingIsOpenLessStrays(tokens, k);
    }
  }

  /** The tokens between two neighbouring separators, or the ends of the list: what reads as one action. */
  predicate Segment(tokens: seq<string>, i: int, j: int) {
    && 0 <= i <= j <= |tokens|
    && (i == 0 || Separator(tokens, i - 1)) && (j == |tokens| || Separator(tokens, j))
    && forall k :: i <= k < j ==> !Separator(tokens, k)
  }

  /** A segment is checked as one action exactly when every comma in it and at its ends is undisturbed. */
  lemma {:induction false} CheckedIff(tokens: seq<string>, i: int, j: int)
    requires Segment(tokens, i, j)
    ensures Piece(tokens, i, j) <==> forall k :: i - 1 <= k <= j ==> Undisturbed(tokens, k)
  {
    hide CutAt, Separator, Undisturbed;
    forall k ensures (CutAt(tokens, k) <==> Separator(tokens, k)) <==> Undisturbed(tokens, k) {
      UndisturbedIff(tokens, k);
    }
    NoCommaOutside(tokens, -1);
    NoCommaOutside(tokens, |tokens|);
  }

  lemma {:induction false} NoCommaOutside(tokens: seq<string>, k: int)
    requires k < 0 || k >= |tokens|
    ensures !CutAt(tokens, k) && !Separator(tokens, k) && Undisturbed(tokens, k)
  {
  }

  /** With balanced parentheses, ALTER TABLE's actions are accepted exactly when each segment is a known one. */
  lemma {:induction false} BalancedActionsIff(tokens: seq<string>)
    requires Balanced(tokens)
    ensures OnlyActions(tokens) <==> forall i, j | Segment(tokens, i, j) :: IsAction(tokens[i..j])
  {
    hide CutAt, Separator, IsAction, Balanced;
    forall k ensures CutAt(tokens, k) <==> Separator(tokens, k) {
      BalancedCutsAreSeparators(tokens, k);
    }
    assert forall i, j :: Piece(tokens, i, j) <==> Segment(tokens, i, j);
    hide Piece, Segment;
  }

  lemma {:induction false} BalancedHasNoStrays(tokens: seq<string>, k: nat)
    requires Balanced(tokens) && k <= |tokens|
    ensures Strays(tokens, k) == 0
  {
    if k > 0 {
      BalancedHasNoStrays(tokens, k - 1);
      NestingIsOpenLessStrays(tokens, k - 1);
      NestingIsOpenLessStrays(tokens, k);
      assert Nesting(tokens, k) >= 0;
    }
  }

  /** The tokens of an ALTER TABLE with an action, a stray parenthesis, a comma, and a word that is no action. */
  function WithStray(t: string, a: string, w: string): seq<string> {
    ["ALTER", "TABLE", t, "ADD", a, ")", ",", w]
  }

  lemma {:induction false} UpperIsFixed(t: string)
    requires forall c :: c in t ==> UpperChar(c) == c
    ensures Upper(t) == t
  {
    if t != [] {
      assert t == [t[0]] + t[1..];
      UpperIsFixed(t[1..]);
    }
  }

  lemma {:induction false} UpperWords()
    ensures Upper("ADD") == "ADD" && Upper("ALTER") == "ALTER" && Upper("TABLE") == "TABLE"
  {
    hide Upper;
    UpperIsFixed("ADD");
    UpperIsFixed("ALTER");
    UpperIsFixed("TABLE");
  }

  lemma {:induction false} UpperTwo(a: string, b: string)
    ensures UpperAll([a, b]) == [Upper(a), Upper(b)]
  {
    hide Upper;
    assert [a, b][1..] == [b] && [b][1..] == [];
    assert UpperAll([b]) == [Upper(b)] + UpperAll([]);
  }

  lemma {:induction false} TwoWordsMatch(tokens: seq<string>, index: nat, first: string, second: string)
    ensures Matches(tokens, index, [first, second]) ==>
      index + 1 < |tokens| && Upper(tokens[index]) == first && Upper(tokens[index + 1]) == second
  {
    hide Upper, UpperAll;
    if Matches(tokens, index, [first, second]) {
      var upper := UpperAll(tokens[index..index + 2]);
      assert upper == [first, second];
      assert tokens[index..index + 2] == [tokens[index], tokens[index + 1]];
      UpperTwo(tokens[index], tokens[index + 1]);
      assert upper[0] == Upper(tokens[index]) && upper[1] == Upper(tokens[index + 1]);
      assert upper[0] == first && upper[1] == second;
    }
  }

  lemma {:induction false} StrayHead(t: string, a: string, w: string)
    requires IsSnakeCase(t)
    ensures NameAt(WithStray(t, a, w), SkipWords(WithStray(t, a, w), ["IF", "EXISTS"]), 3)
  {
    UpperWords();
    hide Upper, IsSnakeCase, Matches;
    TwoWordsMatch(WithStray(t, a, w), 2, "IF", "EXISTS");
  }

  lemma {:induction false} StrayWords(t: string, a: string, w: string)
    requires IsSnakeCase(t) && IsSnakeCase(a) && IsSnakeCase(w)
    ensures CheckWords(WithStray(t, a, w), IsAlterTableWord, "ALTER TABLE").None?
  {
    UpperWords();
    hide IsSnakeCase, Upper, IsNumber, CheckWords;
    WordsIff(WithStray(t, a, w), IsAlterTableWord, "ALTER TABLE");
  }

  /** The comma after the stray parenthesis is a separator, but no cut. */
  lemma {:induction false} StrayNesting(a: string, w: string)
    requires a != "(" && a != ")" && a != "," && w != ","
    ensures var actions := ["ADD", a, ")", ",", w];
      (forall k :: !CutAt(actions, k)) && Separator(actions, 3)
  {
    var actions := ["ADD", a, ")", ",", w];
    assert Nesting(actions, 0) == 0 && Open(actions, 0) == 0;
    assert Nesting(actions, 1) == 0 && Open(actions, 1) == 0;
    assert Nesting(actions, 2) == 0 && Open(actions, 2) == 0;
    assert Nesting(actions, 3) == -1 && Open(actions, 3) == 0;
    hide Nesting, Open;
  }

  /** The comma after the stray parenthesis is a separator, but no cut. */
  lemma {:induction false} StrayPieces(a: string, w: string)
    requires IsSnakeCase(a) && IsSnakeCase(w) && Upper(a) != "COLUMN"
    ensures OnlyActions(["ADD", a, ")", ",", w]) && Separator(["ADD", a, ")", ",", w], 3)
  {
    var actions := ["ADD", a, ")", ",", w];
    NotMarks(a);
    NotMarks(w);
    UpperWords();
    hide IsSnakeCase, Upper, CutAt, Separator;
    StrayNesting(a, w);
    forall i, j | Piece(actions, i, j) ensures actions[i..j] == actions {
    }
  }

  lemma {:induction false} NotMarks(name: string)
    requires IsSnakeCase(name)
    ensures name != "(" && name != ")" && name != ","
  {
  }

  /** What follows the comma is not checked: the statement is accepted, although the word is no action. */
  lemma {:induction false} StrayHidesAction(t: string, a: string, w: string)
    requires IsSnakeCase(t) && IsSnakeCase(a) && IsSnakeCase(w) && Upper(a) != "COLUMN"
    ensures CheckAlterTable(WithStray(t, a, w)).None?
    ensures !IsAction([w]) && Separator(WithStray(t, a, w)[3..], 3)
  {
    hide SkipWords, CheckWords, NameAt, OnlyActions, CheckAlterTable, Open, IsSnakeCase, Upper;
    var tokens := WithStray(t, a, w);
    assert tokens[3..] == ["ADD", a, ")", ",", w];
    StrayHead(t, a, w);
    StrayWords(t, a, w);
    StrayPieces(a, w);
    assert AlterForm(tokens, 3);
    AlterStatementIff(tokens);
  }
}
