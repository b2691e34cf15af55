/**
 Reading the column list of an index definition (backend/app/spec/index_redundancy.py) and writing one
 (backend/app/spec/index_design.py).
 */
module IndexDefinitions {
  import opened Dicts

  // ---------------------------------------------------------------- which parentheses count

  /** The number of double quotes among the first `k` characters. */
  ghost function Quotes(text: string, k: nat): nat
    requires k <= |text|
  {
    if k == 0 then 0 else Quotes(text, k - 1) + if text[k - 1] == '"' then 1 else 0
  }

  /**
   A character is part of a quoted name when an odd number of quotes precedes it: a doubled quote closes and reopens.
   */
  ghost predicate Quoted(text: string, k: nat)
    requires k <= |text|
  {
    Quotes(text, k) % 2 == 1
  }

  /** How many groups are open after `k` characters; a stray closing parenthesis closes nothing. */
  ghost function Depth(text: string, k: nat): nat
    requires k <= |text|
  {
    if k == 0 then 0
    else
      var d := Depth(text, k - 1);
      if Quoted(text, k - 1) then d
      else if text[k - 1] == '(' then d + 1
      else if text[k - 1] == ')' && d > 0 then d - 1
      else d
  }

  /** The first group opens at `i` and closes at `j`. */
  ghost predicate FirstGroup(text: string, i: int, j: int) {
    && 0 <= i < j < |text|
    && (forall k :: 0 <= k <= i ==> Depth(text, k) == 0)
    && (forall k :: i < k <= j ==> Depth(text, k) > 0)
    && Depth(text, j + 1) == 0
  }

  /** What the scanner must return: the inside of the first group, if there is one. */
  ghost predicate IsFirstGroup(text: string, r: Option<string>) {
    match r
    case Some(inside) => exists i, j :: FirstGroup(text, i, j) && inside == text[i + 1..j]
    case None => forall i, j :: !FirstGroup(text, i, j)
  }

  lemma {:induction false} FirstGroupIsUnique(text: string, r: Option<string>, s: Option<string>)
    requires IsFirstGroup(text, r) && IsFirstGroup(text, s)
    ensures r == s
  {
    if r.Some? && s.Some? {
      var i, j :| FirstGroup(text, i, j) && r.value == text[i + 1..j];
      var m, n :| FirstGroup(text, m, n) && s.value == text[m + 1..n];
      hide Depth;
      assert Depth(text, i + 1) > 0 && Depth(text, m + 1) > 0;
      assert i == m;
      assert Depth(text, j + 1) == 0 && Depth(text, n + 1) == 0;
      assert j == n;
    }
  }

  /** What the scanner knows after `k` characters: the depth, and where the first group opened (-1: nowhere yet). */
  ghost predicate At(text: string, k: int, depth: nat, start: int) {
    && 0 <= k <= |text|
    && Depth(text, k) == depth
    && -1 <= start < k
    && (start == -1 <==> depth == 0)
    && (forall m {:trigger Depth(text, m)} :: 0 <= m <= (if start < 0 then k else start) ==> Depth(text, m) == 0)
    && (start >= 0 ==> forall m {:trigger Depth(text, m)} :: start < m <= k ==> Depth(text, m) > 0)
  }

  lemma {:induction false} AtStart(text: string)
    ensures At(text, 0, 0, -1) && !Quoted(text, 0)
  {
  }

  lemma {:induction false} AtStep(text: string, k: int, depth: nat, start: int)
    requires At(text, k, depth, start) && k < |text|
    ensures !Quoted(text, k) && text[k] == '(' ==> At(text, k + 1, depth + 1, if depth == 0 then k else start)
    ensures !Quoted(text, k) && text[k] == ')' && depth == 1 ==> FirstGroup(text, start, k)
    ensures !Quoted(text, k) && text[k] == ')' && depth > 1 ==> At(text, k + 1, depth - 1, start)
    ensures Quoted(text, k) || (text[k] != '(' && (text[k] == ')' ==> depth == 0)) ==> At(text, k + 1, depth, start)
    ensures Quoted(text, k + 1) <==> (Quoted(text, k) != (text[k] == '"'))
  {
    var next := Depth(text, k + 1);
    hide Quotes;
  }

  lemma {:induction false} AtEnd(text: string, depth: nat, start: int)
    requires At(text, |text|, depth, start)
    ensures forall i, j :: !FirstGroup(text, i, j)
  {
    hide Depth;
    forall i, j ensures !FirstGroup(text, i, j) {
      if 0 <= i < j < |text| {
        var afterOpen, atClose, afterClose := Depth(text, i + 1), Depth(text, j), Depth(text, j + 1);
        assert start >= 0 ==> Depth(text, start + 1) > 0;
      }
    }
  }

  /** The scanner: one pass, quoted names consumed whole. */
  method FirstParenGroup(text: string) returns (r: Option<string>)
    ensures IsFirstGroup(text, r)
  {
    hide Depth, Quotes, At, Quoted;
    AtStart(text);
    var depth: nat, start, index := 0, -1, 0;
    while index < |text|
      invariant index <= |text| ==> At(text, index, depth, start) && !Quoted(text, index)
      invariant index > |text| ==> At(text, |text|, depth, start)
      invariant index >= 0
    {
      AtStep(text, index, depth, start);
      if text[index] == '"' {
        index := index + 1;
        while index < |text|
          invariant 0 < index <= |text| && Quoted(text, index) && At(text, index, depth, start)
        {
          AtStep(text, index, depth, start);
          if text[index] == '"' {
            if index + 1 < |text| && text[index + 1] == '"' {
              AtStep(text, index + 1, depth, start);
              index := index + 2;
              continue;
            }
            break;
          }
          index := index + 1;
        }
        index := index + 1;
        continue;
      }
      if text[index] == '(' {
        if depth == 0 {
          start := index;
        }
        depth := depth + 1;
      } else if text[index] == ')' && depth > 0 {
        depth := depth - 1;
        if depth == 0 {
          return Some(text[start + 1..index]);
        }
      }
      index := index + 1;
    }
    AtEnd(text, depth, start);
    return None;
  }

  // ---------------------------------------------------------------- writing an index definition

  /** Inside a quoted name a quote is doubled. */
  function Escaped(c: char): string {
    if c == '"' then ['"', '"'] else [c]
  }

  function Escape(name: string): string {
    if name == [] then [] else Escaped(name[0]) + Escape(name[1..])
  }

  lemma {:induction false} EscapePlain(name: string)
    requires '"' !in name
    ensures Escape(name) == name
  {
    if name != [] {
      EscapePlain(name[1..]);
      assert [name[0]] + name[1..] == name;
    }
  }

  function Q(name: string): string {
    ['"'] + Escape(name) + ['"']
  }

  function JoinQuoted(names: seq<string>): string {
    if names == [] then []
    else if |names| == 1 then Q(names[0])
    else Q(names[0]) + ", " + JoinQuoted(names[1..])
  }

  /** The statement recommended for a foreign key without an index. */
  function CreateIndex(name: string, schema: string, table: string, columns: seq<string>): string {
    IndexHead(name, schema, table) + "(" + JoinQuoted(columns) + ");"
  }

  function IndexHead(name: string, schema: string, table: string): string {
    "CREATE INDEX CONCURRENTLY " + Q(name) + " ON " + (Q(schema) + "." + Q(table)) + " USING btree "
  }

  // ---------------------------------------------------------------- reading back what was written

  ghost predicate IsParen(c: char) {
    c == '(' || c == ')'
  }

  /** Text with balanced quotes in which, when read from `inside` or outside a name, no parenthesis counts. */
  ghost predicate Neutral(s: string, inside: bool) {
    && !Quoted(s, |s|)
    && forall k :: 0 <= k < |s| && IsParen(s[k]) ==> Quoted(s, k) != inside
  }

  lemma {:induction false} QuotesConcat(a: string, b: string, k: nat)
    requires k <= |b|
    ensures Quotes(a + b, |a| + k) == Quotes(a, |a|) + Quotes(b, k)
  {
    if k == 0 {
      QuotesPrefix(a, b, |a|);
    } else {
      QuotesConcat(a, b, k - 1);
    }
  }

  lemma {:induction false} QuotesPrefix(a: string, b: string, k: nat)
    requires k <= |a|
    ensures Quotes(a + b, k) == Quotes(a, k)
  {
    if k > 0 {
      QuotesPrefix(a, b, k - 1);
    }
  }

  lemma {:induction false} NeutralConcat(a: string, b: string, inside: bool)
    requires Neutral(a, inside) && Neutral(b, inside)
    ensures Neutral(a + b, inside)
  {
    var s := a + b;
    QuotesConcat(a, b, |b|);
    forall k | 0 <= k < |s| && IsParen(s[k]) ensures Quoted(s, k) != inside {
      if k < |a| {
        QuotesPrefix(a, b, k);
      } else {
        QuotesConcat(a, b, k - |a|);
      }
      hide Quotes;
    }
  }

  lemma {:induction false} NeutralEscape(name: string)
    ensures Neutral(Escape(name), true)
  {
    if name != [] {
      NeutralEscape(name[1..]);
      var first := Escaped(name[0]);
      assert Quotes(first, 1) == if name[0] == '"' then 1 else 0;
      NeutralConcat(first, Escape(name[1..]), true);
    }
  }

  lemma {:induction false} NeutralQ(name: string)
    ensures Neutral(Q(name), false)
  {
    var q, body := ['"'], Escape(name);
    NeutralEscape(name);
    assert Quotes(q, 1) == 1;
    QuotesConcat(q, body, |body|);
    QuotesConcat(q + body, q, 1);
    forall k | 0 <= k < |Q(name)| && IsParen(Q(name)[k]) ensures Quoted(Q(name), k) {
      QuotesPrefix(q + body, q, k);
      QuotesConcat(q, body, k - 1);
      hide Quotes, Escape;
    }
  }

  /** Plain text: neither quotes nor parentheses. */
  ghost predicate Plain(s: string) {
    forall k :: 0 <= k < |s| ==> s[k] != '"' && !IsParen(s[k])
  }

  lemma {:induction false} PlainQuotes(s: string, k: nat)
    requires Plain(s) && k <= |s|
    ensures Quotes(s, k) == 0
  {
    if k > 0 {
      PlainQuotes(s, k - 1);
    }
  }

  lemma {:induction false} NeutralPlain(s: string)
    requires Plain(s)
    ensures Neutral(s, false)
  {
    PlainQuotes(s, |s|);
  }

  lemma {:induction false} NeutralJoin(names: seq<string>)
    ensures Neutral(JoinQuoted(names), false)
  {
    if names != [] {
      NeutralQ(names[0]);
      if |names| > 1 {
        NeutralJoin(names[1..]);
        NeutralPlain(", ");
        NeutralConcat(Q(names[0]), ", ", false);
        NeutralConcat(Q(names[0]) + ", ", JoinQuoted(names[1..]), false);
      }
    }
  }

  lemma {:induction false} NeutralHead(name: string, schema: string, table: string)
    ensures Neutral(IndexHead(name, schema, table), false)
  {
    NeutralQ(name);
    NeutralQ(schema);
    NeutralQ(table);
    hide Q;
    var head, on, dot, using := "CREATE INDEX CONCURRENTLY ", " ON ", ".", " USING btree ";
    NeutralPlain(head);
    NeutralPlain(on);
    NeutralPlain(dot);
    NeutralPlain(using);
    hide Neutral;
    NeutralConcat(head, Q(name), false);
    NeutralConcat(head + Q(name), on, false);
    NeutralConcat(Q(schema), dot, false);
    NeutralConcat(Q(schema) + dot, Q(table), false);
    NeutralConcat(head + Q(name) + on, Q(schema) + dot + Q(table), false);
    NeutralConcat(head + Q(name) + on + (Q(schema) + dot + Q(table)), using, false);
  }

  lemma {:induction false} DepthPrefix(a: string, b: string, k: nat)
    requires k <= |a|
    ensures Depth(a + b, k) == Depth(a, k)
  {
    if k > 0 {
      DepthPrefix(a, b, k - 1);
      QuotesPrefix(a, b, k - 1);
    }
  }

  lemma {:induction false} DepthKept(text: string, n: nat)
    requires 0 < n <= |text| && (Quoted(text, n - 1) || !IsParen(text[n - 1]))
    ensures Depth(text, n) == Depth(text, n - 1)
  {
    hide Quoted;
  }

  lemma {:induction false} NeutralAfter(a: string, b: string, k: nat)
    requires !Quoted(a, |a|) && Neutral(b, false) && k < |b|
    ensures Quoted(a + b, |a| + k) || !IsParen((a + b)[|a| + k])
  {
    hide Quotes;
    QuotesConcat(a, b, k);
    assert (a + b)[|a| + k] == b[k];
  }

  /** Neutral text changes no depth. */
  lemma {:induction false} DepthOver(a: string, b: string, k: nat)
    requires !Quoted(a, |a|) && Neutral(b, false) && k <= |b|
    ensures Depth(a + b, |a| + k) == Depth(a, |a|)
  {
    hide Depth, Quoted, Neutral, IsParen;
    if k == 0 {
      DepthPrefix(a, b, |a|);
    } else {
      DepthOver(a, b, k - 1);
      NeutralAfter(a, b, k - 1);
      DepthKept(a + b, |a| + k);
    }
  }

  lemma {:induction false} DepthWithin(before: string, b: string, after: string, k: nat)
    requires !Quoted(before, |before|) && Neutral(b, false) && k <= |b|
    ensures Depth(before + b + after, |before| + k) == Depth(before, |before|)
    ensures !Quoted(before + b + after, |before| + |b|)
  {
    DepthPrefix(before + b, after, |before| + k);
    DepthOver(before, b, k);
    QuotesPrefix(before + b, after, |before| + |b|);
    QuotesConcat(before, b, |b|);
    hide Quotes, Depth;
  }

  lemma {:induction false} HeadOpens(head: string)
    requires Neutral(head, false)
    ensures Depth(head + "(", |head| + 1) == 1 && !Quoted(head + "(", |head| + 1)
  {
    assert [] + head + "(" == head + "(";
    DepthWithin([], head, "(", |head|);
    QuotesConcat(head, "(", 1);
  }

  lemma {:induction false} GroupDepths(head: string, body: string, tail: string)
    requires Neutral(head, false) && Neutral(body, false)
    ensures var text := head + "(" + body + ")" + tail;
      && (forall k :: 0 <= k <= |head| ==> Depth(text, k) == 0)
      && (forall k :: |head| < k <= |head| + 1 + |body| ==> Depth(text, k) == 1)
      && !Quoted(text, |head| + 1 + |body|)
  {
    var opening := head + "(";
    var text := opening + body + ")" + tail;
    assert text == opening + body + (")" + tail);
    assert text == [] + head + ("(" + body + ")" + tail);
    HeadOpens(head);
    forall k | 0 <= k <= |head| ensures Depth(text, k) == 0 {
      DepthWithin([], head, "(" + body + ")" + tail, k);
    }
    hide Depth, Quotes, Neutral;
    forall k | |head| < k <= |head| + 1 + |body| ensures Depth(text, k) == 1 {
      DepthWithin(opening, body, ")" + tail, k - |opening|);
    }
    DepthWithin(opening, body, ")" + tail, 0);
  }

  /** The scan of a head, a parenthesised body and a tail finds the body. */
  lemma {:induction false} GroupAfterHead(head: string, body: string, tail: string)
    requires Neutral(head, false) && Neutral(body, false)
    ensures IsFirstGroup(head + "(" + body + ")" + tail, Some(body))
  {
    var text := head + "(" + body + ")" + tail;
    var i, j := |head|, |head| + 1 + |body|;
    GroupDepths(head, body, tail);
    hide Quotes, Neutral;
    assert text[j] == ')';
    assert Depth(text, j + 1) == 0;
    hide Depth;
    assert FirstGroup(text, i, j);
    assert text[i + 1..j] == body;
  }

  /** Whatever the names are, the scanner reads back exactly the column list that was written. */
  lemma {:induction false} RecommendedGroup(name: string, schema: string, table: string, columns: seq<string>,
    r: Option<string>)
    ensures IsFirstGroup(CreateIndex(name, schema, table, columns), r) <==> r == Some(JoinQuoted(columns))
  {
    var head, body := IndexHead(name, schema, table), JoinQuoted(columns);
    NeutralHead(name, schema, table);
    NeutralJoin(columns);
    hide Neutral, IndexHead, JoinQuoted, IsFirstGroup;
    GroupAfterHead(head, body, ";");
    assert head + "(" + body + ")" + ";" == head + "(" + body + ");";
    if IsFirstGroup(CreateIndex(name, schema, table, columns), r) {
      FirstGroupIsUnique(CreateIndex(name, schema, table, columns), r, Some(body));
    }
  }

  lemma {:induction false} EscapeStep(x: string, u: string)
    requires x != []
    ensures Escape(x) + ['"'] + u == Escaped(x[0]) + (Escape(x[1..]) + ['"'] + u)
  {
  }

  lemma {:induction false} SameTail(a: string, b: string, s: string, t: string)
    requires |a| == |b| && a + s == b + t
    ensures a == b && s == t
  {
    assert a == (a + s)[..|a|] && b == (b + t)[..|a|];
    assert s == (a + s)[|a|..] && t == (b + t)[|a|..];
  }

  /** A quoted name ends at its first lone quote. */
  lemma {:induction false} NameEnds(x: string, u: string, y: string, v: string)
    requires Escape(x) + ['"'] + u == Escape(y) + ['"'] + v
    requires (u == [] || u[0] != '"') && (v == [] || v[0] != '"')
    ensures x == y && u == v
  {
    var xs := if x == [] then u else Escape(x[1..]) + ['"'] + u;
    var ys := if y == [] then v else Escape(y[1..]) + ['"'] + v;
    var xh := if x == [] then ['"'] else Escaped(x[0]);
    var yh := if y == [] then ['"'] else Escaped(y[0]);
    assert Escape([]) + ['"'] + u == ['"'] + u && Escape([]) + ['"'] + v == ['"'] + v;
    if x != [] { EscapeStep(x, u); }
    if y != [] { EscapeStep(y, v); }
    hide Escape;
    assert xh + xs == yh + ys;
    assert (xh + xs)[0] == xh[0] && (yh + ys)[0] == yh[0];
    assert |xh| == 2 ==> (xh + xs)[1] == '"';
    assert |yh| == 2 ==> (yh + ys)[1] == '"';
    assert |xh| == 1 && xs != [] ==> (xh + xs)[1] == xs[0];
    assert |yh| == 1 && ys != [] ==> (yh + ys)[1] == ys[0];
    if |xh| == |yh| {
      SameTail(xh, yh, xs, ys);
      if x != [] && y != [] {
        NameEnds(x[1..], u, y[1..], v);
      }
    }
  }

  function JoinRest(names: seq<string>): string {
    if names == [] then [] else ", " + JoinQuoted(names)
  }

  lemma {:induction false} Regroup(q: string, b: string, r: string)
    ensures q + b + q + r == q + (b + q + r)
  {
  }

  lemma {:induction false} JoinSplits(names: seq<string>)
    requires names != []
    ensures JoinQuoted(names) == ['"'] + (Escape(names[0]) + ['"'] + JoinRest(names[1..]))
  {
    hide Escape, JoinQuoted, JoinRest;
    JoinHead(names);
    Regroup(['"'], Escape(names[0]), JoinRest(names[1..]));
  }

  lemma {:induction false} JoinHead(names: seq<string>)
    requires names != []
    ensures JoinQuoted(names) == Q(names[0]) + JoinRest(names[1..])
  {
    hide Q;
    assert names[1..] == [] ==> JoinRest(names[1..]) == [];
  }

  /** The written list determines the columns: the quoting loses nothing. */
  lemma {:induction false} QuotingIsLossless(a: seq<string>, b: seq<string>)
    requires JoinQuoted(a) == JoinQuoted(b)
    ensures a == b
  {
    if a != [] { JoinSplits(a); }
    if b != [] { JoinSplits(b); }
    if a != [] && b != [] {
      var s, t := Escape(a[0]) + ['"'] + JoinRest(a[1..]), Escape(b[0]) + ['"'] + JoinRest(b[1..]);
      assert (['"'] + s)[1..] == s && (['"'] + t)[1..] == t;
      NameEnds(a[0], JoinRest(a[1..]), b[0], JoinRest(b[1..]));
      if a[1..] != [] && b[1..] != [] {
        assert JoinRest(a[1..])[2..] == JoinQuoted(a[1..]) && JoinRest(b[1..])[2..] == JoinQuoted(b[1..]);
      }
      QuotingIsLossless(a[1..], b[1..]);
    }
  }
}
