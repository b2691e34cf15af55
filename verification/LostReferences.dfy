/**
 References that the importer does not find, or finds elsewhere (backend/app/spec/dbml_import.py): those with
 their body in braces, and those of composite keys.
 */
module LostReferences {
  import opened Dicts
  import opened Text
  import opened DbmlLines

  // ---------------------------------------------------------------- what the scans leave

  predicate AllWord(s: string) {
    forall k :: 0 <= k < |s| ==> IsWordChar(s[k])
  }

  predicate IsSuffix(t: string, s: string) {
    |t| <= |s| && t == s[|s| - |t|..]
  }

  lemma {:induction false} SuffixOf(a: string, t: string)
    ensures IsSuffix(t, a + t)
  {
  }

  lemma {:induction false} SuffixTrans(t: string, s: string, u: string)
    requires IsSuffix(t, s) && IsSuffix(s, u)
    ensures IsSuffix(t, u)
  {
  }

  lemma {:induction false} StripSuffix(s: string)
    ensures IsSuffix(StripLeft(s, IsSpace), s)
  {
    if s != "" && IsSpace(s[0]) {
      StripSuffix(s[1..]);
      SuffixTrans(StripLeft(s[1..], IsSpace), s[1..], s);
    }
  }

  lemma {:induction false} SegmentSplits(s: string)
    requires Segment(s).Found?
    ensures s == Segment(s).text + Segment(s).rest && Segment(s).text != ""
  {
  }

  lemma {:induction false} SegmentIsWord(s: string)
    requires Segment(s).Found? && '"' !in s
    ensures AllWord(Segment(s).text)
  {
    SpanKeeps(s, IsWordChar);
  }

  lemma {:induction false} PathOnce(s: string)
    requires Path(s).Found?
    ensures Segment(s).Found?
    ensures var first, rest := Segment(s).text, Segment(s).rest;
      Path(s) == if rest != "" && rest[0] == '.' && Path(rest[1..]).Found?
                 then Found(first + "." + Path(rest[1..]).text, Path(rest[1..]).rest) else Found(first, rest)
  {
    hide Segment;
  }

  lemma {:induction false} Regroup(first: string, text: string, rest: string)
    ensures first + ("." + (text + rest)) == first + "." + text + rest
  {
  }

  /** A path is taken from the front. */
  lemma {:induction false} PathSplits(s: string)
    requires Path(s).Found?
    ensures s == Path(s).text + Path(s).rest && Path(s).text != ""
    decreases |s|
  {
    hide Path, Segment;
    PathOnce(s);
    SegmentSplits(s);
    var first, rest := Segment(s).text, Segment(s).rest;
    if rest != "" && rest[0] == '.' && Path(rest[1..]).Found? {
      PathSplits(rest[1..]);
      assert rest == "." + rest[1..];
      Regroup(first, Path(rest[1..]).text, Path(rest[1..]).rest);
    }
  }

  predicate WordsAndDots(s: string) {
    forall k :: 0 <= k < |s| ==> IsWordChar(s[k]) || s[k] == '.'
  }

  /** Without quotes a path holds nothing but names and dots. */
  lemma {:induction false} PathIsWords(s: string)
    requires Path(s).Found? && '"' !in s
    ensures WordsAndDots(Path(s).text)
    decreases |s|
  {
    hide Path, Segment, AllWord, WordsAndDots;
    PathOnce(s);
    SegmentSplits(s);
    SegmentIsWord(s);
    var first, rest := Segment(s).text, Segment(s).rest;
    NotInRest(first, rest, '"');
    if rest != "" && rest[0] == '.' && Path(rest[1..]).Found? {
      PathIsWords(rest[1..]);
      WordDotWords(first, Path(rest[1..]).text);
    } else {
      WordDotWords(first, "");
    }
  }

  lemma {:induction false} NotInRest(first: string, rest: string, c: char)
    requires c !in first + rest
    ensures c !in rest && (rest != "" ==> c !in rest[1..])
  {
    assert forall k :: 0 <= k < |rest| ==> (first + rest)[|first| + k] == rest[k];
  }

  lemma {:induction false} WordDotWords(first: string, more: string)
    requires AllWord(first)
    ensures WordsAndDots(first) && (WordsAndDots(more) ==> WordsAndDots(first + "." + more))
  {
  }

  /** Where a comparison is read, an operator follows a path and blanks. */
  lemma {:induction false} ComparisonParts(s: string) returns (b: string, c: string)
    requires Comparison(s).Some?
    ensures IsSuffix(b, s) && Path(b).Found? && c == StripLeft(Path(b).rest, IsSpace)
    ensures c != "" && IsOperator(c[0]) && Path(StripLeft(c[1..], IsSpace)).Found?
    ensures Comparison(s) == Some(Reference(Path(b).text, c[0], Path(StripLeft(c[1..], IsSpace)).text))
  {
    hide Path, IsSpace;
    var a := StripLeft(s, IsSpace);
    StripSuffix(s);
    b := if a != "" && a[0] == ':' then StripLeft(a[1..], IsSpace) else a;
    if a != "" && a[0] == ':' {
      StripSuffix(a[1..]);
      SuffixTrans(b, a[1..], a);
      SuffixTrans(b, a, s);
    }
    c := StripLeft(Path(b).rest, IsSpace);
  }

  lemma {:induction false} NamedPart(s: string, n: nat) returns (m: nat)
    requires n <= |s| && NamedComparison(s, n).Some?
    ensures m <= n && NamedComparison(s, n) == Comparison(s[m..])
  {
    hide Comparison;
    if Comparison(s[n..]).Some? {
      m := n;
    } else {
      m := NamedPart(s, n - 1);
    }
  }

  lemma {:induction false} NamedFinds(s: string, n: nat, m: nat)
    requires m <= n <= |s| && Comparison(s[m..]).Some?
    ensures NamedComparison(s, n).Some?
  {
    hide Comparison;
    if m < n {
      NamedFinds(s, n - 1, m);
    }
  }

  /** What is read at the front of a text is a comparison that it ends in, behind the word. */
  lemma {:induction false} ReferencePart(line: string) returns (x: string)
    requires ReferenceHere(line).Some?
    ensures |line| >= 3 && StartsWith(line, "ref") && IsSuffix(x, line[3..]) && ReferenceHere(line) == Comparison(x)
  {
    hide Comparison;
    var s := StripLeft(line[3..], IsSpace);
    StripSuffix(line[3..]);
    var m := NamedPart(s, |Span(s, IsWordChar)|);
    x := s[m..];
    SuffixTrans(x, s, line[3..]);
  }

  lemma {:induction false} FindsAt(line: string, p: nat)
    requires p <= |line| && ReferenceHere(line[p..]).Some?
    ensures FindReference(line).Some?
  {
    hide ReferenceHere;
    if p > 0 {
      assert line[1..][p - 1..] == line[p..];
      FindsAt(line[1..], p - 1);
    } else {
      assert line[0..] == line;
      NothingInNothing();
    }
  }

  lemma {:induction false} NothingInNothing()
    ensures ReferenceHere("") == None
  {
  }

  lemma {:induction false} NowhereFound(line: string)
    requires forall p :: 0 <= p <= |line| ==> ReferenceHere(line[p..]) == None
    ensures FindReference(line) == None
  {
    hide ReferenceHere;
    if line != "" {
      assert line[0..] == line;
      forall p | 0 <= p <= |line[1..]| ensures ReferenceHere(line[1..][p..]) == None {
        assert line[1..][p..] == line[p + 1..];
      }
      NowhereFound(line[1..]);
    }
  }

  lemma {:induction false} NoLetterR(line: string)
    requires line == "" || Lower(line[0]) != 'r'
    ensures ReferenceHere(line) == None
  {
    if |line| >= 3 {
      assert LowerAll(line[..3])[0] == Lower(line[0]) && "ref"[0] == 'r';
    }
  }

  // ---------------------------------------------------------------- a reference in braces

  lemma {:induction false} PathWord(word: string, r: string)
    requires IsWordText(word) && r != "" && r[0] == ' '
    ensures Path(word + r) == Found(word, r)
  {
    SpanStops(word, r, IsWordChar);
    assert (word + r)[0] == word[0] && (word + r)[|word|..] == r;
  }

  /** After a word, a brace is no operator. */
  lemma {:induction false} NoComparison(word: string, body: string)
    requires AllWord(word)
    ensures Comparison(word + (" {" + body)) == None
  {
    var r, brace := " {" + body, "{" + body;
    hide Path, Span;
    assert r == " " + brace;
    SkipBlank(brace);
    if word == "" {
      assert word + r == r;
      NoPath(brace);
    } else {
      PathWord(word, r);
      assert (word + r)[0] == word[0] && !IsSpace(word[0]) && word[0] != ':';
      assert StripLeft(word + r, IsSpace) == word + r;
    }
  }

  lemma {:induction false} NoPath(s: string)
    requires s != "" && s[0] != '"' && !IsWordChar(s[0])
    ensures Path(s) == Nothing && Span(s, IsWordChar) == ""
  {
  }

  lemma {:induction false} DropWithin(a: string, b: string, n: nat)
    requires n <= |a|
    ensures (a + b)[n..] == a[n..] + b
  {
  }

  lemma {:induction false} NoNamedComparison(name: string, body: string, n: nat)
    requires n <= |name| && AllWord(name)
    ensures NamedComparison(name + (" {" + body), n) == None
  {
    hide Comparison, IsWordChar;
    DropWithin(name, " {" + body, n);
    NoComparison(name[n..], body);
    if n > 0 {
      NoNamedComparison(name, body, n - 1);
    }
  }

  /** Behind the letters of `ref`, blanks or not, a word and a brace read as nothing. */
  lemma {:induction false} NothingBehind(word: string, body: string, blank: string)
    requires AllWord(word) && (blank == "" || blank == " ")
    ensures var s := StripLeft(blank + (word + (" {" + body)), IsSpace);
      NamedComparison(s, |Span(s, IsWordChar)|) == None
  {
    hide NamedComparison, Path;
    var rest := word + (" {" + body);
    StripBlank(blank, rest);
    if word == "" {
      assert rest == " " + ("{" + body);
      SkipBlank("{" + body);
      NoPath("{" + body);
      NothingAtBrace(body);
    } else {
      assert rest[0] == word[0];
      SpanStops(word, " {" + body, IsWordChar);
      NoNamedComparison(word, body, |word|);
    }
  }

  lemma {:induction false} StripBlank(blank: string, s: string)
    requires blank == "" || blank == " "
    ensures StripLeft(blank + s, IsSpace) == StripLeft(s, IsSpace)
  {
    if blank == " " {
      assert (" " + s)[1..] == s;
    } else {
      assert blank + s == s;
    }
  }

  lemma {:induction false} NothingAtBrace(body: string)
    ensures NamedComparison("{" + body, 0) == None
  {
    NoPath("{" + body);
    assert ("{" + body)[0..] == "{" + body;
    hide Path;
  }

  lemma {:induction false} NotInWord(word: string, body: string)
    requires AllWord(word)
    ensures ReferenceHere(word + (" {" + body)) == None
  {
    var line := word + (" {" + body);
    hide StartsWith, NamedComparison, StripLeft;
    if StartsWith(line, "ref") {
      if |word| < 3 {
        assert line[|word|] == ' ';
        StartsInWord(line, "ref", |word|);
      } else {
        DropWithin(word, " {" + body, 3);
        NothingBehind(word[3..], body, "");
        assert "" + line[3..] == line[3..];
      }
    }
  }

  /** No reference is found before the brace. */
  lemma {:induction false} SkipsWord(word: string, body: string)
    requires AllWord(word)
    ensures FindReference(word + (" {" + body)) == FindReference(body)
  {
    hide ReferenceHere;
    var line := word + (" {" + body);
    NotInWord(word, body);
    if word == "" {
      assert line[1..] == "{" + body && line[1..][1..] == body;
      NoLetterR(line[1..]);
    } else {
      assert line[1..] == word[1..] + (" {" + body);
      SkipsWord(word[1..], body);
    }
  }

  /** The one-line form in braces: what is found, if anything, is found in the braces as in a line of its own. */
  lemma {:induction false} BracedReference(name: string, body: string)
    requires AllWord(name)
    ensures FindReference("Ref " + (name + (" {" + body))) == FindReference(body)
  {
    hide ReferenceHere, FindReference;
    var rest := name + (" {" + body);
    NotAtRef(name, body);
    SkipsOne("R", "ef " + rest);
    NoLetterR("ef " + rest);
    SkipsOne("e", "f " + rest);
    NoLetterR("f " + rest);
    SkipsOne("f", " " + rest);
    NoLetterR(" " + rest);
    SkipsOne(" ", rest);
    assert "Ref " + rest == "R" + ("ef " + rest) && "ef " + rest == "e" + ("f " + rest);
    assert "f " + rest == "f" + (" " + rest);
    SkipsWord(name, body);
  }

  lemma {:induction false} SkipsOne(c: string, rest: string)
    requires |c| == 1
    ensures ReferenceHere(c + rest) == None ==> FindReference(c + rest) == FindReference(rest)
  {
    hide ReferenceHere;
    assert (c + rest)[1..] == rest;
  }

  lemma {:induction false} NotAtRef(name: string, body: string)
    requires AllWord(name)
    ensures ReferenceHere("Ref " + (name + (" {" + body))) == None
  {
    var rest := name + (" {" + body);
    assert ("Ref " + rest)[3..] == " " + rest;
    NothingBehind(name, body, " ");
    hide NamedComparison, StripLeft;
  }

  // ---------------------------------------------------------------- never the one that was written

  /** How often the letter r occurs, in either case. */
  function CountR(s: string): nat {
    if s == "" then 0 else (if Lower(s[0]) == 'r' then 1 else 0) + CountR(s[1..])
  }

  lemma {:induction false} CountRConcat(a: string, b: string)
    ensures CountR(a + b) == CountR(a) + CountR(b)
  {
    if a == "" {
      assert a + b == b;
    } else {
      assert (a + b)[1..] == a[1..] + b;
      CountRConcat(a[1..], b);
    }
  }

  lemma {:induction false} CountRSuffix(t: string, s: string)
    requires IsSuffix(t, s)
    ensures CountR(t) <= CountR(s)
  {
    var a := s[..|s| - |t|];
    assert s == a + t;
    CountRConcat(a, t);
  }

  lemma {:induction false} ComparisonCounts(s: string, r: Reference)
    requires Comparison(s) == Some(r)
    ensures CountR(s) >= CountR(r.source) + CountR(r.target)
  {
    hide Comparison, Path, StripLeft, CountR;
    var b, c := ComparisonParts(s);
    CountRSuffix(b, s);
    PathSplits(b);
    CountRConcat(Path(b).text, Path(b).rest);
    StripSuffix(Path(b).rest);
    CountRSuffix(c, Path(b).rest);
    var d := StripLeft(c[1..], IsSpace);
    StripSuffix(c[1..]);
    CountRSuffix(d, c[1..]);
    CountRSuffix(c[1..], c);
    PathSplits(d);
    CountRConcat(Path(d).text, Path(d).rest);
  }

  lemma {:induction false} RefCounts(line: string)
    requires StartsWith(line, "ref")
    ensures CountR(line) >= 1 + CountR(line[3..])
  {
    assert LowerAll(line[..3])[0] == Lower(line[0]) && "ref"[0] == 'r';
    CountRSuffix(line[3..], line[1..]);
  }

  /** A found reference has fewer letters r than the line: it stands behind the letters of `ref`. */
  lemma {:induction false} FoundCounts(line: string, r: Reference)
    requires FindReference(line) == Some(r)
    ensures CountR(line) >= 1 + CountR(r.source) + CountR(r.target)
  {
    hide ReferenceHere, CountR, StartsWith, Comparison;
    if ReferenceHere(line).Some? {
      var x := ReferencePart(line);
      ComparisonCounts(x, r);
      CountRSuffix(x, line[3..]);
      RefCounts(line);
    } else {
      FoundCounts(line[1..], r);
      CountRSuffix(line[1..], line);
    }
  }

  /** The body of the documented form: two paths with an operator between them, and the closing brace. */
  function Body(source: string, op: char, target: string): string {
    " " + (source + (" " + ([op] + (" " + (target + " }")))))
  }

  lemma {:induction false} BodyCounts(source: string, op: char, target: string)
    requires IsOperator(op)
    ensures CountR(Body(source, op, target)) == CountR(source) + CountR(target)
  {
    var a := target + " }";
    var b := [op] + (" " + a);
    CountRConcat(target, " }");
    CountRConcat(" ", a);
    CountRConcat([op], " " + a);
    CountRConcat(" ", b);
    CountRConcat(source, " " + b);
    CountRConcat(" ", source + (" " + b));
    assert CountR(" }") == 0 && CountR(" ") == 0 && CountR([op]) == 0 by { NoRs(op); }
    hide CountR;
  }

  lemma {:induction false} NoRs(op: char)
    requires IsOperator(op)
    ensures CountR(" }") == 0 && CountR(" ") == 0 && CountR([op]) == 0
  {
    assert " }"[1..] == "}";
  }

  /** Whatever is found in braces, it is never the reference that was written there. */
  lemma {:induction false} BracedIsNeverRead(name: string, source: string, op: char, target: string)
    requires AllWord(name) && IsOperator(op)
    ensures FindReference("Ref " + (name + (" {" + Body(source, op, target)))) != Some(Reference(source, op, target))
  {
    hide FindReference, CountR, Body;
    BracedReference(name, Body(source, op, target));
    if FindReference(Body(source, op, target)) == Some(Reference(source, op, target)) {
      FoundCounts(Body(source, op, target), Reference(source, op, target));
      BodyCounts(source, op, target);
    }
  }

  // ---------------------------------------------------------------- when another one is found

  /** A character of a name, or a dot between two names. */
  predicate PathChar(s: string, k: int)
    requires 0 <= k < |s|
  {
    IsWordChar(s[k]) || (s[k] == '.' && 0 < k < |s| - 1 && s[k + 1] != '.')
  }

  /** A dotted path of names without quotes. */
  predicate IsSimplePath(s: string) {
    s != "" && forall k :: 0 <= k < |s| ==> PathChar(s, k)
  }

  lemma {:induction false} SimpleSuffix(s: string, k: nat)
    requires IsSimplePath(s) && k < |s| && IsWordChar(s[k])
    ensures IsSimplePath(s[k..])
  {
    var t := s[k..];
    forall m | 0 <= m < |t| ensures PathChar(t, m) {
      assert PathChar(s, m + k) && t[m] == s[m + k];
      assert m < |t| - 1 ==> t[m + 1] == s[m + k + 1];
    }
  }

  lemma {:induction false} SimpleStart(s: string)
    requires IsSimplePath(s)
    ensures IsWordChar(s[0])
  {
    assert PathChar(s, 0);
  }

  lemma {:induction false} WordSegment(w: string, u: string)
    requires w != "" && AllWord(w) && (u == "" || !IsWordChar(u[0]))
    ensures Span(w + u, IsWordChar) == w && Segment(w + u) == Found(w, u)
  {
    SpanStops(w, u, IsWordChar);
    assert (w + u)[|w|..] == u && (w + u)[0] == w[0];
    hide Span;
  }

  lemma {:induction false} DotAfter(s: string, n: nat)
    requires IsSimplePath(s) && n < |s| && !IsWordChar(s[n])
    ensures s[n] == '.' && n + 1 < |s| && IsSimplePath(s[n + 1..])
  {
    assert PathChar(s, n) && PathChar(s, n + 1);
    SimpleSuffix(s, n + 1);
    hide IsSimplePath;
  }

  /** The first name of a simple path, and what follows it. */
  lemma {:induction false} FirstName(s: string, r: string) returns (w: string)
    requires IsSimplePath(s) && (r == "" || (!IsWordChar(r[0]) && r[0] != '.'))
    ensures w != "" && |w| <= |s| && w == s[..|w|] && AllWord(w) && Span(s + r, IsWordChar) == w
    ensures |w| < |s| ==> s[|w|] == '.' && |w| + 1 < |s| && IsSimplePath(s[|w| + 1..])
    ensures Segment(s + r) == Found(w, s[|w|..] + r)
  {
    SimpleStart(s);
    hide IsSimplePath, Segment, IsWordChar, Span;
    w := Span(s, IsWordChar);
    SpanKeeps(s, IsWordChar);
    SpanEnds(s, IsWordChar);
    assert s + r == w + (s[|w|..] + r);
    if |w| < |s| {
      DotAfter(s, |w|);
      assert (s[|w|..] + r)[0] == s[|w|];
    } else {
      assert s[|w|..] + r == r;
    }
    WordSegment(w, s[|w|..] + r);
  }

  lemma {:induction false} PathStops(s: string, first: string, r: string)
    requires Segment(s) == Found(first, r) && (r == "" || r[0] != '.')
    ensures Path(s) == Found(first, r)
  {
    hide Segment;
  }

  lemma {:induction false} SimplePathReads(s: string, r: string)
    requires IsSimplePath(s) && (r == "" || (!IsWordChar(r[0]) && r[0] != '.'))
    ensures Path(s + r) == Found(s, r)
    decreases |s|
  {
    hide IsSimplePath, Segment, Span, Path, AllWord, IsWordChar;
    var w := FirstName(s, r);
    if |w| == |s| {
      assert s[|w|..] + r == r && w == s;
      PathStops(s + r, w, r);
    } else {
      var more := s[|w| + 1..];
      SimplePathReads(more, r);
      assert s[|w|..] + r == "." + (more + r);
      PathJoins(s + r, w, more + r);
      assert s == w + "." + more;
    }
  }

  /** The letters `ref` stand in the path with a letter or digit of the same name behind them. */
  predicate RefInside(source: string, p: int) {
    0 <= p && p + 3 < |source| && StartsWith(source[p..], "ref") && IsWordChar(source[p + 3])
  }

  function Tail(op: char, target: string): string {
    " " + ([op] + (" " + (target + " }")))
  }

  lemma {:induction false} CompareAt(text: string, source: string, rest: string, c: string, d: string, target: string,
    end: string)
    requires StripLeft(text, IsSpace) == text && (text == "" || text[0] != ':') && Path(text) == Found(source, rest)
    requires StripLeft(rest, IsSpace) == c && c != "" && IsOperator(c[0])
    requires StripLeft(c[1..], IsSpace) == d && Path(d) == Found(target, end)
    ensures Comparison(text) == Some(Reference(source, c[0], target))
  {
    hide StripLeft, Path;
  }

  lemma {:induction false} WordAhead(s: string)
    requires s != "" && IsWordChar(s[0])
    ensures StripLeft(s, IsSpace) == s && s[0] != ':' && s[0] != '.' && !IsSpace(s[0])
  {
  }

  /** From a name on, the rest of the path is read as the left side. */
  lemma {:induction false} RestCompares(s: string, op: char, target: string)
    requires IsSimplePath(s) && IsWordChar(s[0]) && IsSimplePath(target) && IsOperator(op)
    ensures Comparison(s + Tail(op, target)) == Some(Reference(s, op, target))
  {
    SimpleStart(target);
    hide Path, IsSimplePath, StripLeft, Comparison, IsWordChar;
    var end := target + " }";
    var c := [op] + (" " + end);
    SimplePathReads(s, Tail(op, target));
    SimplePathReads(target, " }");
    WordAhead(s + Tail(op, target));
    WordAhead(end);
    SkipBlank(c);
    SkipBlank(end);
    assert c[1..] == " " + end;
    CompareAt(s + Tail(op, target), s, Tail(op, target), c, end, target, " }");
  }

  /** A reference whose name is given back but for its last character. */
  lemma {:induction false} LastLetterCompares(s: string, w: string, r: string)
    requires w != "" && IsWordChar(w[0]) && |w| <= |s| && Span(s + r, IsWordChar) == w && s != "" && s[0] == w[0]
    requires Comparison(s[|w| - 1..] + r).Some?
    ensures NamedComparison(StripLeft(s + r, IsSpace), |Span(StripLeft(s + r, IsSpace), IsWordChar)|).Some?
  {
    hide Comparison, Span, IsWordChar, NamedComparison, StripLeft;
    assert (s + r)[0] == s[0];
    WordAhead(s + r);
    assert (s + r)[|w| - 1..] == s[|w| - 1..] + r;
    NamedFinds(s + r, |w|, |w| - 1);
  }

  lemma {:induction false} ReadInside(source: string, op: char, target: string, p: int)
    requires IsSimplePath(source) && IsSimplePath(target) && IsOperator(op) && RefInside(source, p)
    ensures ReferenceHere(source[p..] + Tail(op, target)).Some?
  {
    hide Comparison, IsSimplePath, Span, Segment, Tail, IsWordChar, StripLeft, NamedComparison;
    var s, tail := source[p + 3..], Tail(op, target);
    StartsEarly(source[p..], tail);
    assert (source[p..] + tail)[3..] == s + tail;
    SimpleSuffix(source, p + 3);
    TailStarts(op, target);
    var w := FirstName(s, tail);
    var x := s[|w| - 1..];
    assert IsWordChar(w[0]) && IsWordChar(x[0]) by { WordEnds(w); assert x[0] == w[|w| - 1]; }
    SimpleSuffix(s, |w| - 1);
    RestCompares(x, op, target);
    LastLetterCompares(s, w, tail);
  }

  lemma {:induction false} WordEnds(w: string)
    requires AllWord(w) && w != ""
    ensures IsWordChar(w[0]) && IsWordChar(w[|w| - 1])
  {
  }

  lemma {:induction false} TailStarts(op: char, target: string)
    ensures Tail(op, target) != "" && !IsWordChar(Tail(op, target)[0]) && Tail(op, target)[0] != '.'
  {
  }

  lemma {:induction false} StartsEarly(s: string, tail: string)
    requires |s| >= 3
    ensures StartsWith(s + tail, "ref") <==> StartsWith(s, "ref")
  {
    assert (s + tail)[..3] == s[..3];
  }

  predicate NoOperator(s: string) {
    forall k :: 0 <= k < |s| ==> !IsOperator(s[k])
  }

  lemma {:induction false} NoOperatorSuffix(t: string, s: string)
    requires IsSuffix(t, s) && NoOperator(s)
    ensures NoOperator(t)
  {
    assert forall k :: 0 <= k < |t| ==> t[k] == s[|s| - |t| + k];
  }

  lemma {:induction false} NoOperatorNoReference(line: string)
    requires NoOperator(line)
    ensures ReferenceHere(line) == None
  {
    hide ReferenceHere, Comparison, Path, NoOperator;
    if ReferenceHere(line).Some? {
      var x := ReferencePart(line);
      SuffixTrans(x, line[3..], line);
      var b, c := ComparisonParts(x);
      SuffixTrans(b, x, line);
      PathSplits(b);
      SuffixOf(Path(b).text, Path(b).rest);
      SuffixTrans(Path(b).rest, b, line);
      StripSuffix(Path(b).rest);
      SuffixTrans(c, Path(b).rest, line);
      NoOperatorSuffix(c, line);
      FirstIsNoOperator(c);
    }
  }

  lemma {:induction false} FirstIsNoOperator(c: string)
    requires NoOperator(c) && c != ""
    ensures !IsOperator(c[0])
  {
  }

  lemma {:induction false} NotInSource(source: string, op: char, target: string, p: nat)
    requires IsSimplePath(source) && IsOperator(op) && p < |source| && !RefInside(source, p)
    ensures ReferenceHere(source[p..] + Tail(op, target)) == None
  {
    var tail := Tail(op, target);
    var line := source[p..] + tail;
    hide StartsWith, NamedComparison;
    if StartsWith(line, "ref") {
      if p + 3 > |source| {
        assert line[|source| - p] == ' ';
        StartsInWord(line, "ref", |source| - p);
      } else {
        StartsEarly(source[p..], tail);
        assert line[3..] == source[p + 3..] + tail;
        if p + 3 == |source| {
          var rest := [op] + (" " + (target + " }"));
          assert line[3..] == " " + rest;
          SkipBlank(rest);
          NothingAtMark(rest);
        } else {
          assert PathChar(source, p + 3) && line[3] == source[p + 3];
          assert StripLeft(line[3..], IsSpace) == line[3..];
          NothingAtMark(line[3..]);
        }
      }
    }
  }

  /** Nothing is read at a character that neither starts a path nor may be passed over. */
  lemma {:induction false} NothingAtMark(s: string)
    requires s != "" && s[0] != '"' && s[0] != ':' && !IsWordChar(s[0]) && !IsSpace(s[0])
    ensures Span(s, IsWordChar) == "" && NamedComparison(s, 0) == None
  {
    NoPath(s);
    assert s[0..] == s;
    hide Path;
  }

  lemma {:induction false} NoOperatorBehind(target: string)
    requires IsSimplePath(target)
    ensures NoOperator(target + " }")
  {
    var s := target + " }";
    forall k | 0 <= k < |s| ensures !IsOperator(s[k]) {
      if k < |target| {
        assert PathChar(target, k) && s[k] == target[k];
      } else {
        assert s[k] == " }"[k - |target|];
      }
    }
  }

  lemma {:induction false} NotInTail(op: char, target: string, p: nat)
    requires IsSimplePath(target) && IsOperator(op) && p <= |Tail(op, target)|
    ensures ReferenceHere(Tail(op, target)[p..]) == None
  {
    var tail := Tail(op, target);
    if p < 3 {
      assert tail[p] == ' ' || tail[p] == op;
      NoLetterR(tail[p..]);
    } else {
      assert tail[p..] == (target + " }")[p - 3..];
      NoOperatorBehind(target);
      NoOperatorSuffix(tail[p..], target + " }");
      NoOperatorNoReference(tail[p..]);
    }
  }

  lemma {:induction false} NotInBody(source: string, op: char, target: string)
    requires IsSimplePath(source) && IsSimplePath(target) && IsOperator(op) && forall p :: !RefInside(source, p)
    ensures FindReference(Body(source, op, target)) == None
  {
    var body, tail := Body(source, op, target), Tail(op, target);
    hide ReferenceHere, RefInside, IsSimplePath, Tail;
    assert body == " " + (source + tail) by { BodyEnds(source, op, target); }
    hide Body;
    forall p | 0 <= p <= |body| ensures ReferenceHere(body[p..]) == None {
      if p == 0 {
        assert body[0..] == body;
        NoLetterR(body);
      } else if p <= |source| {
        assert body[p..] == source[p - 1..] + tail;
        NotInSource(source, op, target, p - 1);
      } else {
        assert body[p..] == tail[p - 1 - |source|..];
        NotInTail(op, target, p - 1 - |source|);
      }
    }
    NowhereFound(body);
  }

  lemma {:induction false} BodyEnds(source: string, op: char, target: string)
    ensures Body(source, op, target) == " " + (source + Tail(op, target))
  {
  }

  /**
   With plain names a reference in braces is lost, unless the letters `ref` stand in a name of its left side, but
   not at its end; then another one is found.
   */
  lemma {:induction false} BracedIsFoundIff(name: string, source: string, op: char, target: string)
    requires AllWord(name) && IsSimplePath(source) && IsSimplePath(target) && IsOperator(op)
    ensures FindReference("Ref " + (name + (" {" + Body(source, op, target)))).Some? <==>
      exists p :: RefInside(source, p)
  {
    hide FindReference, ReferenceHere, Body, RefInside, IsSimplePath, Tail;
    var body := Body(source, op, target);
    BracedReference(name, body);
    if p :| RefInside(source, p) {
      ReadInside(source, op, target, p);
      assert 0 <= p < |source| by { InsideBounds(source, p); }
      BodyEnds(source, op, target);
      assert body[p + 1..] == source[p..] + Tail(op, target);
      FindsAt(body, p + 1);
    } else {
      NotInBody(source, op, target);
    }
  }

  lemma {:induction false} InsideBounds(source: string, p: int)
    requires RefInside(source, p)
    ensures 0 <= p < |source|
  {
  }

  /** A table called `refs` is such a name: the reference is read as one of a table `s`. */
  lemma {:induction false} RefsIsReadAsS()
    ensures FindReference("Ref " + ("x" + (" {" + Body("refs.a", '>', "b.c")))) == Some(Reference("s.a", '>', "b.c"))
  {
    hide FindReference, ReferenceHere, Body;
    var body, line := Body("refs.a", '>', "b.c"), "refs.a" + Tail('>', "b.c");
    BracedReference("x", body);
    BodyEnds("refs.a", '>', "b.c");
    NoLetterR(body);
    SkipsOne(" ", line);
    RefsReads();
    FoundHere(line);
  }

  lemma {:induction false} FoundHere(line: string)
    requires ReferenceHere(line).Some?
    ensures FindReference(line) == ReferenceHere(line)
  {
    hide ReferenceHere;
    NothingInNothing();
  }

  lemma {:induction false} RefsReads()
    ensures ReferenceHere("refs.a" + Tail('>', "b.c")) == Some(Reference("s.a", '>', "b.c"))
  {
    hide LowerAll, Comparison, Tail, IsSimplePath;
    var tail := Tail('>', "b.c");
    var line, s := "refs.a" + tail, "s.a" + tail;
    LowerRef();
    assert line[..3] == "ref" && line[3..] == s;
    WordAhead(s);
    SpanStops("s", ".a" + tail, IsWordChar);
    assert s == "s" + (".a" + tail);
    DotReads(".a" + tail);
    SimpleNames();
    RestCompares("s.a", '>', "b.c");
    assert s[1..] == ".a" + tail && s[0..] == s;
    assert NamedComparison(s, 0) == Some(Reference("s.a", '>', "b.c"));
    assert |Span(s, IsWordChar)| == 1 && NamedComparison(s, 1) == NamedComparison(s, 0);
    assert StripLeft(line[3..], IsSpace) == s && StartsWith(line, "ref");
  }

  lemma {:induction false} SimpleNames()
    ensures IsSimplePath("s.a") && IsSimplePath("b.c")
  {
  }

  lemma {:induction false} DotReads(s: string)
    requires s != "" && s[0] == '.'
    ensures Comparison(s) == None
  {
    NoPath(s);
    hide Path;
  }

  lemma {:induction false} LowerRef()
    ensures LowerAll("ref") == "ref"
  {
  }

  // ---------------------------------------------------------------- composite keys

  /** Every operator stands behind a closing parenthesis and a blank. */
  predicate ClosedOperators(s: string) {
    forall k :: 0 <= k < |s| && IsOperator(s[k]) ==> (k >= 1 ==> s[k - 1] == ' ') && (k >= 2 ==> s[k - 2] == ')')
  }

  lemma {:induction false} ClosedSuffix(t: string, s: string)
    requires IsSuffix(t, s) && ClosedOperators(s) && '"' !in s
    ensures ClosedOperators(t) && '"' !in t
  {
    var d := |s| - |t|;
    forall k | 0 <= k < |t| && IsOperator(t[k])
      ensures (k >= 1 ==> t[k - 1] == ' ') && (k >= 2 ==> t[k - 2] == ')')
    {
      assert t[k] == s[k + d];
      assert k >= 1 ==> t[k - 1] == s[k + d - 1];
      assert k >= 2 ==> t[k - 2] == s[k + d - 2];
    }
    assert forall k :: 0 <= k < |t| ==> t[k] == s[k + d];
  }

  lemma {:induction false} StripDropsBlanks(s: string)
    ensures forall k :: 0 <= k < |s| - |StripLeft(s, IsSpace)| ==> IsSpace(s[k])
  {
    if s != "" && IsSpace(s[0]) {
      StripDropsBlanks(s[1..]);
    }
  }

  lemma {:induction false} NoOperatorBehindPath(p: string, blanks: string, c: string)
    requires p != "" && WordsAndDots(p) && c != "" && forall k :: 0 <= k < |blanks| ==> IsSpace(blanks[k])
    requires ClosedOperators(p + blanks + c)
    ensures !IsOperator(c[0])
  {
    var s, m := p + blanks + c, |p| + |blanks|;
    assert s[m] == c[0];
    assert s[m - 1] == if blanks == "" then p[|p| - 1] else blanks[|blanks| - 1];
    if |blanks| >= 2 {
      assert s[m - 2] == blanks[|blanks| - 2];
    } else if |blanks| == 1 {
      assert s[m - 2] == p[|p| - 1];
    }
  }

  lemma {:induction false} NoPathBefore(b: string)
    requires ClosedOperators(b) && '"' !in b && Path(b).Found?
    ensures var c := StripLeft(Path(b).rest, IsSpace); c == "" || !IsOperator(c[0])
  {
    hide Path, StripLeft, ClosedOperators, WordsAndDots;
    PathSplits(b);
    PathIsWords(b);
    var p, rest := Path(b).text, Path(b).rest;
    var c := StripLeft(rest, IsSpace);
    StripSuffix(rest);
    StripDropsBlanks(rest);
    var blanks := rest[..|rest| - |c|];
    assert b == p + blanks + c;
    if c != "" {
      NoOperatorBehindPath(p, blanks, c);
    }
  }

  lemma {:induction false} NothingClosed(line: string)
    requires ClosedOperators(line) && '"' !in line
    ensures ReferenceHere(line) == None
  {
    hide ReferenceHere, Comparison, Path, ClosedOperators;
    if ReferenceHere(line).Some? {
      var x := ReferencePart(line);
      SuffixTrans(x, line[3..], line);
      var b, c := ComparisonParts(x);
      SuffixTrans(b, x, line);
      ClosedSuffix(b, line);
      NoPathBefore(b);
    }
  }

  /** The reference of a composite key is not read, nor is another one, when no name needs quotes. */
  lemma {:induction false} CompositeIsLost(source: string, target: string)
    requires NoOperator(source) && NoOperator(target) && '"' !in source && '"' !in target
    requires source != "" && source[|source| - 1] == ')'
    ensures FindReference(RefLine(source, target)) == None
  {
    var line := RefLine(source, target);
    ClosedLine(source, target);
    hide ReferenceHere, ClosedOperators, NoOperator;
    forall p | 0 <= p <= |line| ensures ReferenceHere(line[p..]) == None {
      ClosedSuffix(line[p..], line);
      NothingClosed(line[p..]);
    }
    NowhereFound(line);
  }

  lemma {:induction false} ClosedLine(source: string, target: string)
    requires NoOperator(source) && NoOperator(target) && '"' !in source && '"' !in target
    requires source != "" && source[|source| - 1] == ')'
    ensures ClosedOperators(RefLine(source, target)) && '"' !in RefLine(source, target)
  {
    var line := RefLine(source, target);
    var at := |source| + 6;
    RefPlaces(source, target);
    LeadIsPlain();
    hide RefLine;
    forall k | 0 <= k < |line| && k != at ensures !IsOperator(line[k]) && line[k] != '"' {
      if k < 5 {
        assert line[k] == "Ref: "[k];
      } else if k < at - 1 {
        assert line[k] == source[k - 5];
      } else if k > at + 1 {
        assert line[k] == target[k - at - 2];
      }
    }
  }

  lemma {:induction false} RefPlaces(source: string, target: string)
    ensures var line, at := RefLine(source, target), |source| + 6;
      && |line| == at + 2 + |target|
      && (forall k :: 0 <= k < 5 ==> line[k] == "Ref: "[k])
      && (forall k :: 5 <= k < at - 1 ==> line[k] == source[k - 5])
      && line[at - 1] == ' ' && line[at] == '>' && line[at + 1] == ' '
      && (forall k :: at + 2 <= k < |line| ==> line[k] == target[k - at - 2])
  {
  }

  lemma {:induction false} LeadIsPlain()
    ensures NoOperator("Ref: ") && '"' !in "Ref: "
  {
  }
}
