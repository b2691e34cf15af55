/** The few string operations of the source's language that the modelled code uses, on ASCII text. */
module Text {

  predicate IsSpace(c: char) {
    c == ' ' || '\t' <= c <= '\r' || '\U{1c}' <= c <= '\U{1f}'
  }

  function Lower(c: char): char {
    if 'A' <= c <= 'Z' then c - 'A' + 'a' else c
  }

  function LowerAll(s: string): (r: string)
    ensures |r| == |s| && forall k :: 0 <= k < |s| ==> r[k] == Lower(s[k])
  {
    if s == [] then [] else [Lower(s[0])] + LowerAll(s[1..])
  }

  /** Tabulator to carriage return, the four separators, and the blank. */
  lemma {:induction false} SpaceIs(c: char)
    ensures IsSpace(c) <==> c as int in {9, 10, 11, 12, 13, 28, 29, 30, 31, 32}
  {
  }

  /** In ASCII a small letter stands 32 behind its capital. Nothing else changes. */
  lemma {:induction false} LowerIs(c: char)
    ensures Lower(c) as int == if 65 <= c as int <= 90 then c as int + 32 else c as int
  {
  }

  predicate OccursAt(s: string, t: string, k: int) {
    0 <= k <= |s| - |t| && s[k..k + |t|] == t
  }

  predicate Contains(s: string, t: string) {
    exists k | 0 <= k <= |s| :: OccursAt(s, t, k)
  }

  function StripLeft(s: string, drop: char -> bool): string {
    if s != [] && drop(s[0]) then StripLeft(s[1..], drop) else s
  }

  function StripRight(s: string, drop: char -> bool): string {
    if s != [] && drop(s[|s| - 1]) then StripRight(s[..|s| - 1], drop) else s
  }

  function Strip(s: string, drop: char -> bool): string {
    StripRight(StripLeft(s, drop), drop)
  }

  predicate IsQuote(c: char) {
    c == '"'
  }

  /** The part before the first character that stops it. */
  function UpTo(s: string, stop: char -> bool): string {
    if s == [] || stop(s[0]) then [] else [s[0]] + UpTo(s[1..], stop)
  }

  /** The first of the words between blanks, empty if there is none. */
  function FirstWord(s: string): string {
    UpTo(StripLeft(s, IsSpace), IsSpace)
  }

  function Split(s: string, separator: char): (parts: seq<string>)
    ensures |parts| > 0
  {
    if s == [] then [[]]
    else
      var rest := Split(s[1..], separator);
      if s[0] == separator then [[]] + rest else [[s[0]] + rest[0]] + rest[1..]
  }

  predicate IsLetter(c: char) {
    'A' <= c <= 'Z' || 'a' <= c <= 'z' || c == '_'
  }

  predicate IsDigit(c: char) {
    '0' <= c <= '9'
  }

  predicate IsWordChar(c: char) {
    IsLetter(c) || IsDigit(c)
  }

  /** The longest prefix of characters to keep. */
  function Span(s: string, keep: char -> bool): (r: string)
    ensures |r| <= |s| && r == s[..|r|]
    ensures s != [] && keep(s[0]) ==> r != []
  {
    if s != [] && keep(s[0]) then [s[0]] + Span(s[1..], keep) else []
  }

  lemma {:induction false} SpanKeeps(s: string, keep: char -> bool)
    ensures forall k :: 0 <= k < |Span(s, keep)| ==> keep(s[k])
  {
    if s != [] && keep(s[0]) {
      SpanKeeps(s[1..], keep);
    }
  }

  lemma {:induction false} SpanEnds(s: string, keep: char -> bool)
    ensures |Span(s, keep)| < |s| ==> !keep(s[|Span(s, keep)|])
  {
    if s != [] && keep(s[0]) {
      SpanEnds(s[1..], keep);
    }
  }

  lemma {:induction false} SpanStops(t: string, r: string, keep: char -> bool)
    requires forall k :: 0 <= k < |t| ==> keep(t[k])
    requires r == [] || !keep(r[0])
    ensures Span(t + r, keep) == t
  {
    if t != [] {
      assert (t + r)[1..] == t[1..] + r;
      SpanStops(t[1..], r, keep);
    } else {
      assert t + r == r;
    }
  }

  function Last(s: string): char {
    if s == "" then ' ' else s[|s| - 1]
  }

  function Join(ns: seq<string>, separator: string): string {
    if ns == [] then "" else if |ns| == 1 then ns[0] else ns[0] + separator + Join(ns[1..], separator)
  }

  lemma {:induction false} StripEnds(s: string, drop: char -> bool)
    requires s != "" && !drop(s[0]) && !drop(s[|s| - 1])
    ensures Strip(s, drop) == s && StripLeft(s, drop) == s
  {
  }

  lemma {:induction false} SplitWhole(s: string, separator: char)
    requires separator !in s
    ensures Split(s, separator) == [s]
  {
    if s != "" {
      SplitWhole(s[1..], separator);
      assert [s[0]] + s[1..] == s;
    }
  }

  lemma {:induction false} SplitHead(s: string, r: string, separator: char)
    requires separator !in s
    ensures Split(s + [separator] + r, separator) == [s] + Split(r, separator)
  {
    var all := s + [separator] + r;
    if s == [] {
      assert all == [separator] + r && all[1..] == r;
    } else {
      assert all[1..] == s[1..] + [separator] + r && all[0] == s[0];
      SplitHead(s[1..], r, separator);
      assert [s[0]] + s[1..] == s;
    }
  }
}
