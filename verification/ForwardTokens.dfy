/**
 The tokens, statements and layout of the forward-apply text (backend/app/pg_introspect/forward_ddl.py):
 laying tokens out and reading them again gives the same tokens.
 */
module ForwardTokens {
  import opened Text

  // ---------------------------------------------------------------- tokens

  predicate IsPunct(c: char) {
    c == '(' || c == ')' || c == ',' || c == '.'
  }

  predicate IsTokenChar(c: char) {
    IsWordChar(c) || IsPunct(c)
  }

  /** The token at the start of the text. */
  function TokenAt(s: string): (t: string)
    requires s != [] && IsTokenChar(s[0])
    ensures 0 < |t| <= |s| && t == s[..|t|]
  {
    if IsLetter(s[0]) then Span(s, IsWordChar)
    else if IsDigit(s[0]) then Span(s, IsDigit)
    else s[..1]
  }

  /** All tokens, left to right; characters that start no token are passed over. */
  function Tokens(s: string): seq<string> {
    if s == [] then []
    else if IsTokenChar(s[0]) then [TokenAt(s)] + Tokens(s[|TokenAt(s)|..])
    else Tokens(s[1..])
  }

  function Concat(ts: seq<string>): string {
    if ts == [] then [] else ts[0] + Concat(ts[1..])
  }

  /** The text without its blanks. */
  function Squeeze(s: string): string {
    if s == [] then [] else (if IsSpace(s[0]) then [] else [s[0]]) + Squeeze(s[1..])
  }

  predicate IsToken(t: string) {
    && t != []
    && if IsLetter(t[0]) then forall k :: 0 <= k < |t| ==> IsWordChar(t[k])
       else if IsDigit(t[0]) then forall k :: 0 <= k < |t| ==> IsDigit(t[k])
       else |t| == 1 && IsPunct(t[0])
  }

  ghost predicate AllTokens(ts: seq<string>) {
    forall k :: 0 <= k < |ts| ==> IsToken(ts[k])
  }

  lemma {:induction false} TokensAreTokens(s: string)
    ensures AllTokens(Tokens(s))
    decreases |s|
  {
    if s != [] && IsTokenChar(s[0]) {
      SpanKeeps(s, IsWordChar);
      SpanKeeps(s, IsDigit);
      TokensAreTokens(s[|TokenAt(s)|..]);
    } else if s != [] {
      TokensAreTokens(s[1..]);
    }
  }

  /** The next character would become part of the token. */
  predicate Extends(t: string, c: char)
    requires t != []
  {
    (IsLetter(t[0]) && IsWordChar(c)) || (IsDigit(t[0]) && IsDigit(c))
  }

  /** A token that nothing extends is read back. */
  lemma {:induction false} TokenReadBack(t: string, r: string)
    requires IsToken(t) && (r == [] || !Extends(t, r[0]))
    ensures Tokens(t + r) == [t] + Tokens(r)
  {
    if IsLetter(t[0]) {
      SpanStops(t, r, IsWordChar);
    } else if IsDigit(t[0]) {
      SpanStops(t, r, IsDigit);
    }
    assert (t + r)[0] == t[0];
    assert (t + r)[|t|..] == r;
  }

  lemma {:induction false} ConcatIsTokens(ts: seq<string>)
    requires AllTokens(ts)
    ensures forall c :: c in Concat(ts) ==> IsTokenChar(c)
  {
    if ts != [] {
      ConcatIsTokens(ts[1..]);
      assert IsToken(ts[0]);
    }
  }

  predicate Supported(s: string) {
    forall c :: c in s ==> IsSpace(c) || IsTokenChar(c)
  }

  lemma {:induction false} SupportedTail(s: string, n: nat)
    requires Supported(s) && n <= |s|
    ensures Supported(s[n..])
  {
  }

  lemma {:induction false} SqueezeKeeps(s: string, c: char)
    requires c in s && !IsSpace(c)
    ensures c in Squeeze(s)
  {
    if c != s[0] {
      SqueezeKeeps(s[1..], c);
    }
  }

  lemma {:induction false} SqueezeToken(t: string, r: string)
    requires forall k :: 0 <= k < |t| ==> IsTokenChar(t[k])
    ensures Squeeze(t + r) == t + Squeeze(r)
  {
    if t != [] {
      assert (t + r)[1..] == t[1..] + r;
      SqueezeToken(t[1..], r);
    } else {
      assert t + r == r;
    }
  }

  lemma {:induction false} TokenAtChars(s: string)
    requires s != [] && IsTokenChar(s[0])
    ensures forall k :: 0 <= k < |TokenAt(s)| ==> IsTokenChar(TokenAt(s)[k])
  {
    SpanKeeps(s, IsWordChar);
    SpanKeeps(s, IsDigit);
  }

  lemma {:induction false} TokensStep(s: string)
    requires s != [] && IsTokenChar(s[0])
    ensures Concat(Tokens(s)) == TokenAt(s) + Concat(Tokens(s[|TokenAt(s)|..]))
  {
  }

  lemma {:induction false} SupportedRenders(s: string)
    requires Supported(s)
    ensures Concat(Tokens(s)) == Squeeze(s)
    decreases |s|
  {
    if s != [] && IsTokenChar(s[0]) {
      var t := TokenAt(s);
      var rest := s[|t|..];
      TokenAtChars(s);
      TokensStep(s);
      SupportedTail(s, |t|);
      SupportedRenders(rest);
      SqueezeToken(t, rest);
      hide TokenAt, Tokens, Concat, Squeeze, IsTokenChar;
      assert s == t + rest;
    } else if s != [] {
      assert IsSpace(s[0]);
      SupportedTail(s, 1);
      SupportedRenders(s[1..]);
    }
  }

  /** The joined tokens are the squeezed text exactly when every character is a blank or part of a token. */
  lemma {:induction false} RendersIff(s: string)
    ensures Concat(Tokens(s)) == Squeeze(s) <==> Supported(s)
  {
    if Supported(s) {
      SupportedRenders(s);
    }
    if Concat(Tokens(s)) == Squeeze(s) {
      TokensAreTokens(s);
      ConcatIsTokens(Tokens(s));
      forall c | c in s ensures IsSpace(c) || IsTokenChar(c) {
        if !IsSpace(c) {
          SqueezeKeeps(s, c);
        }
      }
    }
  }

  // ---------------------------------------------------------------- layout

  predicate NoSpaceBefore(t: string) {
    t == ")" || t == "," || t == "."
  }

  predicate NoSpaceAfter(c: char) {
    c == '(' || c == '.'
  }

  function Gap(last: char, t: string): string {
    if NoSpaceBefore(t) || NoSpaceAfter(last) then "" else " "
  }

  /** The layout of the tokens that follow a text which ends in the given character. */
  function Laid(last: char, ts: seq<string>): string
    decreases |ts|
  {
    if ts == [] then "" else Gap(last, ts[0]) + (ts[0] + Laid(Last(ts[0]), ts[1..]))
  }

  function Format(ts: seq<string>): string {
    if ts == [] then "" else ts[0] + Laid(Last(ts[0]), ts[1..])
  }

  lemma {:induction false} LastOf(a: string, b: string)
    requires b != ""
    ensures a + b != "" && Last(a + b) == Last(b)
  {
  }

  lemma {:induction false} LaidStep(sql: string, ts: seq<string>)
    requires ts != [] && ts[0] != ""
    ensures var next := sql + Gap(Last(sql), ts[0]) + ts[0];
      next != "" && sql + Laid(Last(sql), ts) == next + Laid(Last(next), ts[1..])
  {
    var gap, rest := Gap(Last(sql), ts[0]), Laid(Last(ts[0]), ts[1..]);
    assert Laid(Last(sql), ts) == gap + (ts[0] + rest);
    hide Gap, Last, Laid;
    LastOf(sql + gap, ts[0]);
    Regroup(sql, gap, ts[0], rest);
  }

  lemma {:induction false} Regroup(a: string, b: string, c: string, d: string)
    ensures a + (b + (c + d)) == a + b + c + d
  {
  }

  /** The layout starts with the first token, and each next token follows its gap. */
  lemma {:induction false} FormatStep(tokens: seq<string>, i: nat, sql: string)
    requires i < |tokens| && tokens[i] != ""
    requires if i == 0 then sql == "" else sql != "" && sql + Laid(Last(sql), tokens[i..]) == Format(tokens)
    ensures var next := if i == 0 then tokens[0] else sql + Gap(Last(sql), tokens[i]) + tokens[i];
      next != "" && next + Laid(Last(next), tokens[i + 1..]) == Format(tokens)
  {
    hide Gap, Last, Laid;
    assert tokens[i..][1..] == tokens[i + 1..];
    LaidStep(sql, tokens[i..]);
  }

  lemma {:induction false} NothingLaid(last: char)
    ensures Laid(last, []) == ""
  {
  }

  method FormatStatement(tokens: seq<string>) returns (sql: string)
    requires forall k :: 0 <= k < |tokens| ==> tokens[k] != ""
    ensures sql == Format(tokens)
  {
    hide Laid, Last, Format;
    sql := "";
    for i := 0 to |tokens|
      invariant if i == 0 then sql == "" else sql != "" && sql + Laid(Last(sql), tokens[i..]) == Format(tokens)
    {
      var token := tokens[i];
      FormatStep(tokens, i, sql);
      GapAfter(sql, token);
      if sql != "" && !NoSpaceBefore(token) && !NoSpaceAfter(sql[|sql| - 1]) {
        sql := sql + " ";
      }
      sql := sql + token;
    }
    assert tokens[|tokens|..] == [] && sql + "" == sql;
    NothingLaid(Last(sql));
    NothingFormatted();
  }

  lemma {:induction false} GapAfter(sql: string, t: string)
    ensures sql + Gap(Last(sql), t) + t ==
      if sql == "" then Gap(' ', t) + t
      else if !NoSpaceBefore(t) && !NoSpaceAfter(sql[|sql| - 1]) then sql + " " + t else sql + t
    ensures "" + t == t
  {
    assert sql + "" == sql;
  }

  lemma {:induction false} NothingFormatted()
    ensures Format([]) == ""
  {
  }

  lemma {:induction false} TokenEnds(t: string)
    requires IsToken(t)
    ensures t != "" && IsTokenChar(t[0]) && IsTokenChar(Last(t))
    ensures NoSpaceAfter(Last(t)) ==> IsPunct(t[0])
    ensures NoSpaceBefore(t) ==> IsPunct(t[0])
    ensures forall k :: 0 <= k < |t| ==> IsTokenChar(t[k])
  {
  }

  /** What follows a token in a layout does not extend it. */
  lemma {:induction false} LaidApart(previous: string, ts: seq<string>)
    requires IsToken(previous) && AllTokens(ts)
    ensures var r := Laid(Last(previous), ts); r == [] || !Extends(previous, r[0])
  {
    if ts != [] {
      TokenEnds(previous);
      assert IsToken(ts[0]);
      TokenEnds(ts[0]);
      var gap := Gap(Last(previous), ts[0]);
      var r := Laid(Last(previous), ts);
      assert r == gap + (ts[0] + Laid(Last(ts[0]), ts[1..]));
      hide Laid, IsToken, Last;
      assert r[0] == if gap == "" then ts[0][0] else ' ';
    }
  }

  lemma {:induction false} TokensAfterGap(gap: string, s: string)
    requires gap == "" || gap == " "
    ensures Tokens(gap + s) == Tokens(s)
  {
    if gap == " " {
      assert (gap + s)[1..] == s;
    } else {
      assert gap + s == s;
    }
  }

  lemma {:induction false} GapIs(last: char, t: string)
    ensures Gap(last, t) == "" || Gap(last, t) == " "
  {
  }

  lemma {:induction false} LaidTokensStep(last: char, t: string, rest: string)
    requires IsToken(t) && (rest == [] || !Extends(t, rest[0]))
    ensures Tokens(Gap(last, t) + (t + rest)) == [t] + Tokens(rest)
  {
    GapIs(last, t);
    hide Gap, Tokens, IsToken, Extends;
    TokenReadBack(t, rest);
    TokensAfterGap(Gap(last, t), t + rest);
  }

  lemma {:induction false} LaidTokens(last: char, ts: seq<string>)
    requires AllTokens(ts)
    ensures Tokens(Laid(last, ts)) == ts
    decreases |ts|
  {
    if ts != [] {
      assert IsToken(ts[0]);
      LaidTokens(Last(ts[0]), ts[1..]);
      LaidApart(ts[0], ts[1..]);
      LaidTokensStep(last, ts[0], Laid(Last(ts[0]), ts[1..]));
      hide Last, IsToken, Extends, Gap, Tokens;
      assert ts == [ts[0]] + ts[1..];
    }
  }

  /** Reading a formatted statement gives back its tokens. */
  lemma {:induction false} FormatReadBack(ts: seq<string>)
    requires AllTokens(ts)
    ensures Tokens(Format(ts)) == ts
  {
    if ts != [] {
      assert IsToken(ts[0]);
      var rest := Laid(Last(ts[0]), ts[1..]);
      LaidTokens(Last(ts[0]), ts[1..]);
      LaidApart(ts[0], ts[1..]);
      hide Laid, Last, IsToken, Extends, Tokens;
      TokenReadBack(ts[0], rest);
      assert ts == [ts[0]] + ts[1..];
    }
  }

  /** A formatted statement has no blank at either end, and only plain blanks inside. */
  predicate Neat(s: string) {
    && s != ""
    && IsTokenChar(s[0]) && IsTokenChar(Last(s))
    && forall k :: 0 <= k < |s| ==> s[k] == ' ' || IsTokenChar(s[k])
  }

  lemma {:induction false} NeatStep(s: string, t: string)
    requires Neat(s) && IsToken(t)
    ensures Neat(s + Gap(Last(s), t) + t)
  {
    TokenEnds(t);
    hide IsToken, IsTokenChar;
    var gap := Gap(Last(s), t);
    assert gap == "" || gap == " ";
    assert Last(s + gap + t) == Last(t);
  }

  lemma {:induction false} LaidNeat(s: string, ts: seq<string>)
    requires Neat(s) && AllTokens(ts)
    ensures Neat(s + Laid(Last(s), ts))
    decreases |ts|
  {
    if ts != [] {
      assert IsToken(ts[0]);
      NeatStep(s, ts[0]);
      TokenEnds(ts[0]);
      LaidStep(s, ts);
      hide IsToken, Neat, Laid;
      LaidNeat(s + Gap(Last(s), ts[0]) + ts[0], ts[1..]);
    } else {
      assert s + "" == s;
    }
  }

  lemma {:induction false} FormatNeat(ts: seq<string>)
    requires AllTokens(ts) && ts != []
    ensures Neat(Format(ts))
  {
    assert IsToken(ts[0]);
    TokenEnds(ts[0]);
    hide IsToken;
    LaidNeat(ts[0], ts[1..]);
  }

  // ---------------------------------------------------------------- statements

  function CleanParts(parts: seq<string>): seq<string> {
    if parts == [] then []
    else
      var part := Strip(parts[0], IsSpace);
      (if part == "" then [] else [part]) + CleanParts(parts[1..])
  }

  function Statements(sql: string): seq<string> {
    CleanParts(Split(sql, ';'))
  }

  /** The text that is executed. */
  function Output(ns: seq<string>): string {
    Join(ns, ";\n") + ";"
  }

  lemma {:induction false} StatementsAfterNewline(s: string)
    ensures Statements("\n" + s) == Statements(s)
  {
    var parts := Split(s, ';');
    assert ("\n" + s)[1..] == s;
    assert Split("\n" + s, ';') == ["\n" + parts[0]] + parts[1..];
    assert ("\n" + parts[0])[1..] == parts[0];
    assert Strip("\n" + parts[0], IsSpace) == Strip(parts[0], IsSpace);
    assert (["\n" + parts[0]] + parts[1..])[1..] == parts[1..];
  }

  lemma {:induction false} OutputStep(ns: seq<string>)
    requires ns != []
    ensures Output(ns) == ns[0] + [';'] + (if |ns| == 1 then "" else "\n" + Output(ns[1..]))
  {
  }

  lemma {:induction false} NeatStatement(n: string)
    requires Neat(n)
    ensures ';' !in n && Strip(n, IsSpace) == n
  {
  }

  /** Splitting the output gives back exactly the statements it was made of. */
  lemma {:induction false} OutputReadBack(ns: seq<string>)
    requires ns != [] && forall k :: 0 <= k < |ns| ==> Neat(ns[k])
    ensures Statements(Output(ns)) == ns
  {
    var n, rest := ns[0], if |ns| == 1 then "" else "\n" + Output(ns[1..]);
    NeatStatement(n);
    OutputStep(ns);
    SplitHead(n, rest, ';');
    if |ns| == 1 {
      assert Statements("") == [];
    } else {
      OutputReadBack(ns[1..]);
      StatementsAfterNewline(Output(ns[1..]));
    }
    hide Output, Split, Strip, Neat;
    assert ([n] + Split(rest, ';'))[1..] == Split(rest, ';');
    assert Statements(Output(ns)) == [n] + Statements(rest);
    assert ns == [n] + ns[1..];
  }
}
