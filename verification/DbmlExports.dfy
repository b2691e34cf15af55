/** What frontend/src/erd/dbml.ts writes for titles, comments and handles of any kind. */
module DbmlExports {
  import opened Dbml
  import opened DbmlLines
  import opened Dicts
  import IndexDefinitions
  import opened Text

  // ---------------------------------------------------------------- comments

  lemma {:induction false} NothingDoubled(a: string)
    requires '\'' !in a
    ensures EscapeString(a) == a
  {
    if a != "" {
      NothingDoubled(a[1..]);
      assert a == [a[0]] + a[1..];
    }
  }

  lemma {:induction false} QuoteFirst(b: string)
    ensures EscapeString(['\''] + b) == ['\'', '\''] + EscapeString(b)
  {
    assert (['\''] + b)[1..] == b;
  }

  /** A quote is doubled, and nothing else is touched. */
  lemma {:induction false} QuotesDoubled(a: string, b: string)
    requires '\'' !in a
    ensures EscapeString(a + ['\''] + b) == a + ['\'', '\''] + EscapeString(b)
  {
    if a == "" {
      QuoteFirst(b);
      assert a + ['\''] + b == ['\''] + b && a + ['\'', '\''] + EscapeString(b) == ['\'', '\''] + EscapeString(b);
    } else {
      var rest := a[1..];
      QuotesDoubled(rest, b);
      var s, t := rest + ['\''] + b, rest + ['\'', '\''] + EscapeString(b);
      assert a == [a[0]] + rest;
      assert a + ['\''] + b == [a[0]] + s && a + ['\'', '\''] + EscapeString(b) == [a[0]] + t;
      assert ([a[0]] + s)[1..] == s;
    }
  }

  lemma {:induction false} BreakIs(c: char)
    ensures IsBreak(c) <==> c as int in {10, 11, 12, 13, 28, 29, 30}
  {
  }

  lemma {:induction false} BlankIs(c: char)
    ensures IsBlank(c) <==> c as int in {9, 10, 11, 12, 13, 32}
  {
  }

  // ---------------------------------------------------------------- titles

  lemma {:induction false} SplitJoins(s: string)
    ensures Join(Split(s, '.'), ".") == s
  {
    if s != "" {
      SplitJoins(s[1..]);
      var rest := Split(s[1..], '.');
      assert s == [s[0]] + s[1..];
      if s[0] == '.' {
        assert ([""] + rest)[1..] == rest;
      } else {
        assert ([[s[0]] + rest[0]] + rest[1..])[1..] == rest[1..];
      }
    }
  }

  /** Letters, digits and underscores, without a digit in front. */
  lemma {:induction false} PlainIs(s: string)
    ensures IsPlain(s) <==>
      && s != "" && !(48 <= s[0] as int <= 57)
      && forall k :: 0 <= k < |s| ==>
        s[k] == '_' || 48 <= s[k] as int <= 57 || 65 <= s[k] as int <= 90 || 97 <= s[k] as int <= 122
  {
  }

  /** A name is written as it is if it is plain, and between quotes if not. */
  lemma {:induction false} NameWrittenIff(name: string)
    ensures SafeId(name) == name <==> name == "" || IsPlain(name)
    ensures name != "" && !IsPlain(name) ==> SafeId(name) == IndexDefinitions.Q(name)
  {
    if name != "" && !IsPlain(name) {
      NotShorter(name);
    }
    hide IsPlain, IndexDefinitions.Escape;
  }

  lemma {:induction false} NotShorter(s: string)
    ensures |IndexDefinitions.Escape(s)| >= |s|
  {
    if s != "" {
      NotShorter(s[1..]);
    }
  }

  /** A title is cut at its first dot. An empty schema is left away in the header of a table, but not in references. */
  lemma {:induction false} TitleWritten(schema: string, table: string)
    requires '.' !in schema
    ensures RefName(schema) == HeaderName(schema) == SafeId(schema)
    ensures RefName(schema + "." + table) == SafeId(schema) + "." + SafeId(table)
    ensures HeaderName(schema + "." + table) ==
      if schema == "" then SafeId(table) else SafeId(schema) + "." + SafeId(table)
  {
    hide SafeId, Split, Join;
    SplitWhole(schema, '.');
    SplitHead(schema, table, '.');
    assert schema + "." + table == schema + ['.'] + table;
    SplitJoins(table);
    assert ([schema] + Split(table, '.'))[1..] == Split(table, '.');
  }

  // ---------------------------------------------------------------- handles

  lemma {:induction false} OneFurther(s: string, prefix: string, i: nat)
    requires s != ""
    ensures OccursAt(s, prefix, i + 1) <==> OccursAt(s[1..], prefix, i)
  {
    var t, n := s[1..], |prefix|;
    if i + 1 + n <= |s| {
      var u, v := s[i + 1..i + 1 + n], t[i..i + n];
      forall k | 0 <= k < n ensures u[k] == v[k] {
      }
      assert u == v;
    }
  }

  lemma {:induction false} AtStart(s: string, prefix: string)
    ensures OccursAt(s, prefix, 0) <==> |prefix| <= |s| && s[..|prefix|] == prefix
  {
  }

  lemma {:induction false} Within(s: string, prefix: string, k: nat)
    requires OccursAt(s, prefix, k)
    ensures k + |prefix| <= |s|
  {
  }

  /** The first occurrence goes. */
  lemma {:induction false} FirstDropped(s: string, prefix: string, k: nat)
    requires prefix != "" && OccursAt(s, prefix, k) && forall i: nat :: i < k ==> !OccursAt(s, prefix, i)
    ensures k + |prefix| <= |s| && DropFirst(s, prefix) == s[..k] + s[k + |prefix|..]
  {
    hide OccursAt;
    AtStart(s, prefix);
    Within(s, prefix, k);
    if k > 0 {
      assert !OccursAt(s, prefix, 0);
      forall i: nat ensures OccursAt(s, prefix, i + 1) <==> OccursAt(s[1..], prefix, i) {
        OneFurther(s, prefix, i);
      }
      FirstDropped(s[1..], prefix, k - 1);
      OneBack(s, k, k + |prefix|);
    }
  }

  lemma {:induction false} OneBack(s: string, k: nat, n: nat)
    requires 0 < k <= n <= |s|
    ensures [s[0]] + (s[1..][..k - 1] + s[1..][n - 1..]) == s[..k] + s[n..]
  {
  }

  /** Without an occurrence nothing goes. */
  lemma {:induction false} NothingDropped(s: string, prefix: string)
    requires forall i: nat :: !OccursAt(s, prefix, i)
    ensures DropFirst(s, prefix) == s
  {
    if |s| >= |prefix| && prefix != "" {
      AtStart(s, prefix);
      assert !OccursAt(s, prefix, 0);
      forall i: nat ensures !OccursAt(s[1..], prefix, i) {
        OneFurther(s, prefix, i);
      }
      NothingDropped(s[1..], prefix);
      assert s == [s[0]] + s[1..];
    }
  }

  /** Without columns of its own, an edge takes them from its handles. */
  lemma {:induction false} ColumnsFromHandles(e: Edge, source: string, target: string)
    requires e.columns.None? && e.sourceHandle == "src-" + source && e.targetHandle == "tgt-" + target
    ensures EdgeColumns(e) == ([source], [target])
  {
    hide DropFirst;
    PrefixDropped("src-", source);
    PrefixDropped("tgt-", target);
  }

  /** Unless it has both handles. */
  lemma {:induction false} NoColumns(e: Edge)
    requires e.columns.None? && (e.sourceHandle == "" || e.targetHandle == "")
    ensures EdgeColumns(e) == ([], [])
  {
  }

  lemma {:induction false} PrefixDropped(prefix: string, s: string)
    requires prefix != ""
    ensures DropFirst(prefix + s, prefix) == s
  {
  }
}
