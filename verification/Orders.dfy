/** Total orders, lexicographic order on lists, and the stable sort that the source gets from Python. */
module Orders {
  import opened Lists

  ghost predicate TotalPreorder<T(!new)>(le: (T, T) -> bool) {
    && (forall a, b :: le(a, b) || le(b, a))
    && (forall a, b, c :: le(a, b) && le(b, c) ==> le(a, c))
  }

  ghost predicate TotalOrder<T(!new)>(le: (T, T) -> bool) {
    TotalPreorder(le) && forall a, b :: le(a, b) && le(b, a) ==> a == b
  }

  predicate LexLe<T(==)>(le: (T, T) -> bool, a: seq<T>, b: seq<T>) {
    if a == [] then true
    else if b == [] then false
    else if a[0] == b[0] then LexLe(le, a[1..], b[1..])
    else le(a[0], b[0])
  }

  lemma {:induction false} LexTotal<T(!new)>(le: (T, T) -> bool, a: seq<T>, b: seq<T>)
    requires TotalOrder(le)
    ensures LexLe(le, a, b) || LexLe(le, b, a)
  {
    if a != [] && b != [] {
      LexTotal(le, a[1..], b[1..]);
    }
  }

  lemma {:induction false} LexAntisymmetric<T(!new)>(le: (T, T) -> bool, a: seq<T>, b: seq<T>)
    requires TotalOrder(le) && LexLe(le, a, b) && LexLe(le, b, a)
    ensures a == b
  {
    if a != [] && b != [] {
      assert a == [a[0]] + a[1..] && b == [b[0]] + b[1..];
      if a[0] == b[0] {
        LexAntisymmetric(le, a[1..], b[1..]);
      }
    }
  }

  lemma {:induction false} LexTransitive<T(!new)>(le: (T, T) -> bool, a: seq<T>, b: seq<T>, c: seq<T>)
    requires TotalOrder(le) && LexLe(le, a, b) && LexLe(le, b, c)
    ensures LexLe(le, a, c)
  {
    if a != [] && b != [] && c != [] && a[0] == b[0] && b[0] == c[0] {
      LexTransitive(le, a[1..], b[1..], c[1..]);
    }
  }

  predicate CharLe(a: char, b: char) {
    a <= b
  }

  /** Python's order on strings. */
  predicate StringLe(a: string, b: string) {
    LexLe(CharLe, a, b)
  }

  /** The first place where two lists differ, and the order of what stands there. */
  ghost predicate LessAt<T>(le: (T, T) -> bool, a: seq<T>, b: seq<T>, k: nat) {
    k < |a| && k < |b| && a[..k] == b[..k] && a[k] != b[k] && le(a[k], b[k])
  }

  /** The one list is a prefix of the other, or is less at the first place where they differ. */
  lemma {:induction false} LexIff<T>(le: (T, T) -> bool, a: seq<T>, b: seq<T>)
    ensures LexLe(le, a, b) <==> a <= b || exists k: nat :: LessAt(le, a, b, k)
  {
    if a != [] && b != [] {
      if a[0] == b[0] {
        LexIff(le, a[1..], b[1..]);
        assert a == [a[0]] + a[1..] && b == [b[0]] + b[1..];
        assert a <= b <==> a[1..] <= b[1..];
        forall k: nat ensures LessAt(le, a, b, k + 1) <==> LessAt(le, a[1..], b[1..], k) {
          if k < |a| - 1 && k < |b| - 1 {
            assert a[..k + 1] == [a[0]] + a[1..][..k] && b[..k + 1] == [b[0]] + b[1..][..k];
            assert a[..k + 1][1..] == a[1..][..k] && b[..k + 1][1..] == b[1..][..k];
          }
        }
        if k: nat :| LessAt(le, a, b, k) {
          assert k > 0 && LessAt(le, a[1..], b[1..], k - 1);
        }
        if k: nat :| LessAt(le, a[1..], b[1..], k) {
          assert LessAt(le, a, b, k + 1);
        }
      } else {
        assert LessAt(le, a, b, 0) <==> le(a[0], b[0]);
        assert forall k: nat :: LessAt(le, a, b, k) && k > 0 ==> a[..k][0] == b[..k][0];
      }
    }
  }

  /** Strings are compared by the code points at the first place where they differ; a prefix comes first. */
  lemma {:induction false} StringLeIff(a: string, b: string)
    ensures StringLe(a, b) <==>
      a <= b || exists k: nat :: k < |a| && k < |b| && a[..k] == b[..k] && a[k] as int < b[k] as int
  {
    LexIff(CharLe, a, b);
    assert forall k: nat ::
      LessAt(CharLe, a, b, k) <==> k < |a| && k < |b| && a[..k] == b[..k] && a[k] as int < b[k] as int;
  }

  /** Python's order on tuples of strings. */
  predicate TupleLe(a: seq<string>, b: seq<string>) {
    LexLe(StringLe, a, b)
  }

  lemma {:induction false} StringOrder()
    ensures TotalOrder(StringLe)
  {
    assert TotalOrder(CharLe);
    forall a, b ensures StringLe(a, b) || StringLe(b, a) { LexTotal(CharLe, a, b); }
    forall a, b | StringLe(a, b) && StringLe(b, a) ensures a == b { LexAntisymmetric(CharLe, a, b); }
    forall a, b, c | StringLe(a, b) && StringLe(b, c) ensures StringLe(a, c) { LexTransitive(CharLe, a, b, c); }
  }

  lemma {:induction false} TupleOrder()
    ensures TotalOrder(TupleLe)
  {
    StringOrder();
    forall a, b ensures TupleLe(a, b) || TupleLe(b, a) { LexTotal(StringLe, a, b); }
    forall a, b | TupleLe(a, b) && TupleLe(b, a) ensures a == b { LexAntisymmetric(StringLe, a, b); }
    forall a, b, c | TupleLe(a, b) && TupleLe(b, c) ensures TupleLe(a, c) { LexTransitive(StringLe, a, b, c); }
  }

  // ---------------------------------------------------------------- sorting

  ghost predicate Sorted<T>(le: (T, T) -> bool, s: seq<T>) {
    forall i, j :: 0 <= i < j < |s| ==> le(s[i], s[j])
  }

  function Insert<T>(le: (T, T) -> bool, x: T, s: seq<T>): (r: seq<T>)
    ensures multiset(r) == multiset(s) + multiset{x}
  {
    if s == [] then [x]
    else if le(x, s[0]) then
      assert [s[0]] + s[1..] == s;
      [x] + s
    else
      assert [s[0]] + s[1..] == s;
      [s[0]] + Insert(le, x, s[1..])
  }

  /** A stable sort: an element goes before the equal ones that followed it. */
  function Sort<T>(le: (T, T) -> bool, s: seq<T>): (r: seq<T>)
    ensures multiset(r) == multiset(s)
  {
    if s == [] then []
    else
      assert s == [s[0]] + s[1..];
      Insert(le, s[0], Sort(le, s[1..]))
  }

  lemma {:induction false} InsertAbove<T(!new)>(le: (T, T) -> bool, x: T, s: seq<T>)
    requires TotalPreorder(le) && Sorted(le, s) && s != [] && !le(x, s[0])
    ensures forall y :: y in Insert(le, x, s[1..]) ==> le(s[0], y)
  {
    var rest := Insert(le, x, s[1..]);
    forall y | y in rest ensures le(s[0], y) {
      assert y in multiset(rest);
      assert y == x || y in s[1..];
    }
  }

  lemma {:induction false} InsertSorted<T(!new)>(le: (T, T) -> bool, x: T, s: seq<T>)
    requires TotalPreorder(le) && Sorted(le, s)
    ensures Sorted(le, Insert(le, x, s))
  {
    if s != [] && !le(x, s[0]) {
      InsertSorted(le, x, s[1..]);
      InsertAbove(le, x, s);
      var rest := Insert(le, x, s[1..]);
      assert forall j :: 0 <= j < |rest| ==> rest[j] in rest;
    }
  }

  lemma {:induction false} SortSorted<T(!new)>(le: (T, T) -> bool, s: seq<T>)
    requires TotalPreorder(le)
    ensures Sorted(le, Sort(le, s))
  {
    if s != [] {
      SortSorted(le, s[1..]);
      InsertSorted(le, s[0], Sort(le, s[1..]));
    }
  }

  /** The elements that the order puts neither before nor after x. */
  function TiesWith<T>(le: (T, T) -> bool, x: T, s: seq<T>): seq<T> {
    if s == [] then []
    else Tie(le, x, s[0]) + TiesWith(le, x, s[1..])
  }

  function Tie<T>(le: (T, T) -> bool, x: T, y: T): seq<T> {
    if le(x, y) && le(y, x) then [y] else []
  }

  lemma {:induction false} TiesCons<T>(le: (T, T) -> bool, x: T, y: T, s: seq<T>)
    ensures TiesWith(le, x, [y] + s) == Tie(le, x, y) + TiesWith(le, x, s)
  {
    assert ([y] + s)[1..] == s;
  }

  /** What goes past smaller elements passes no element that it ties with. */
  lemma {:induction false} TiesApart<T(!new)>(le: (T, T) -> bool, x: T, y: T, z: T)
    requires TotalPreorder(le) && !le(y, z)
    ensures Tie(le, x, z) == [] || Tie(le, x, y) == []
  {
  }

  lemma {:induction false} InsertStable<T(!new)>(le: (T, T) -> bool, x: T, y: T, s: seq<T>)
    requires TotalPreorder(le)
    ensures TiesWith(le, x, Insert(le, y, s)) == TiesWith(le, x, [y] + s)
  {
    hide TiesWith, Tie, TotalPreorder;
    if s != [] && !le(y, s[0]) {
      InsertStable(le, x, y, s[1..]);
      TiesCons(le, x, y, s[1..]);
      TiesCons(le, x, y, s);
      TiesCons(le, x, s[0], s[1..]);
      TiesCons(le, x, s[0], Insert(le, y, s[1..]));
      TiesApart(le, x, y, s[0]);
      assert [s[0]] + s[1..] == s;
    } else {
      assert [y] + s == Insert(le, y, s);
    }
  }

  /** Elements that tie stay in the order in which they came. */
  lemma {:induction false} SortStable<T(!new)>(le: (T, T) -> bool, x: T, s: seq<T>)
    requires TotalPreorder(le)
    ensures TiesWith(le, x, Sort(le, s)) == TiesWith(le, x, s)
  {
    if s != [] {
      SortStable(le, x, s[1..]);
      hide TiesWith, Tie, Insert;
      InsertStable(le, x, s[0], Sort(le, s[1..]));
      TiesCons(le, x, s[0], Sort(le, s[1..]));
      TiesCons(le, x, s[0], s[1..]);
      assert [s[0]] + s[1..] == s;
    }
  }

  // ---------------------------------------------------------------- the sort as an arrangement

  /** a goes before b: it is less, or they tie and it came first. */
  ghost predicate SortsBefore<T>(le: (T, T) -> bool, s: seq<T>, a: nat, b: nat)
    requires a < |s| && b < |s|
  {
    le(s[a], s[b]) && (le(s[b], s[a]) ==> a < b)
  }

  /** Each position of s once. */
  ghost predicate Positions(n: nat, places: seq<nat>) {
    && |places| == n && Distinct(places)
    && (forall k :: 0 <= k < n ==> places[k] < n) && (forall m: nat :: m < n ==> m in places)
  }

  /** The elements of s, taken from the given places, in order. */
  ghost predicate Arranges<T>(le: (T, T) -> bool, s: seq<T>, places: seq<nat>, t: seq<T>) {
    && Positions(|s|, places) && |t| == |s|
    && (forall k :: 0 <= k < |t| ==> t[k] == s[places[k]])
    && forall i, j :: 0 <= i < j < |t| ==> SortsBefore(le, s, places[i], places[j])
  }

  /** The list with an element put at place n. */
  ghost predicate PutAt<T>(s: seq<T>, n: nat, x: T, r: seq<T>) {
    && n <= |s| && |r| == |s| + 1 && r[n] == x
    && forall k :: 0 <= k < |r| && k != n ==> r[k] == s[if k < n then k else k - 1]
  }

  function InsertPlace<T>(le: (T, T) -> bool, x: T, s: seq<T>): (n: nat)
    ensures n <= |s|
  {
    if s == [] || le(x, s[0]) then 0 else 1 + InsertPlace(le, x, s[1..])
  }

  /** An element is inserted in front of the first that it does not come after. */
  lemma {:induction false} InsertPuts<T>(le: (T, T) -> bool, x: T, s: seq<T>)
    ensures PutAt(s, InsertPlace(le, x, s), x, Insert(le, x, s))
    ensures var n := InsertPlace(le, x, s); (forall i :: 0 <= i < n ==> !le(x, s[i])) && (n < |s| ==> le(x, s[n]))
  {
    if s != [] && !le(x, s[0]) {
      InsertPuts(le, x, s[1..]);
      hide PutAt;
      PutBehind(s, InsertPlace(le, x, s[1..]), x, Insert(le, x, s[1..]));
      assert forall i :: 0 < i < |s| ==> s[i] == s[1..][i - 1];
    } else {
      assert forall k :: 0 < k < |[x] + s| ==> ([x] + s)[k] == s[k - 1];
    }
  }

  lemma {:induction false} PutBehind<T>(s: seq<T>, m: nat, x: T, rest: seq<T>)
    requires s != [] && PutAt(s[1..], m, x, rest)
    ensures PutAt(s, m + 1, x, [s[0]] + rest)
  {
    var r := [s[0]] + rest;
    forall k | 0 <= k < |r| && k != m + 1 ensures r[k] == s[if k < m + 1 then k else k - 1] {
      if k > 0 {
        assert r[k] == rest[k - 1];
      }
    }
  }

  function Shifted(places: seq<nat>, n: nat): (r: seq<nat>)
    requires n <= |places|
    ensures |r| == |places| + 1 && r[n] == 0
    ensures forall k :: 0 <= k < |r| && k != n ==> r[k] == places[if k < n then k else k - 1] + 1
  {
    seq(|places| + 1, k requires 0 <= k < |places| + 1 =>
      if k == n then 0 else places[if k < n then k else k - 1] + 1)
  }

  /** Where the elements of a sorted list come from; ties are taken in the order of the list. */
  function Places<T>(le: (T, T) -> bool, s: seq<T>): (r: seq<nat>)
    ensures |r| == |s|
  {
    if s == [] then []
    else
      SameElements(Sort(le, s[1..]), s[1..]);
      Shifted(Places(le, s[1..]), InsertPlace(le, s[0], Sort(le, s[1..])))
  }

  lemma {:induction false} SortArranges<T(!new)>(le: (T, T) -> bool, s: seq<T>)
    requires TotalPreorder(le)
    ensures Arranges(le, s, Places(le, s), Sort(le, s))
  {
    if s != [] {
      var t, from := Sort(le, s[1..]), Places(le, s[1..]);
      SortArranges(le, s[1..]);
      SortSorted(le, s[1..]);
      SameElements(t, s[1..]);
      InsertPuts(le, s[0], t);
      var n := InsertPlace(le, s[0], t);
      hide Arranges, PutAt, Places, Shifted, InsertPlace, Insert, Distinct;
      AllAfter(le, s[0], t, n);
      PlacesStep(le, s);
      InsertArranges(le, s, from, t, n, Shifted(from, n), Sort(le, s));
    }
  }

  lemma {:induction false} PlacesStep<T>(le: (T, T) -> bool, s: seq<T>)
    requires s != []
    ensures |Sort(le, s[1..])| == |s| - 1
    ensures Places(le, s) == Shifted(Places(le, s[1..]), InsertPlace(le, s[0], Sort(le, s[1..])))
    ensures Sort(le, s) == Insert(le, s[0], Sort(le, s[1..]))
  {
    hide Shifted, InsertPlace, Insert;
    SameElements(Sort(le, s[1..]), s[1..]);
  }

  lemma {:induction false} AllAfter<T(!new)>(le: (T, T) -> bool, x: T, t: seq<T>, n: nat)
    requires TotalPreorder(le) && Sorted(le, t) && n <= |t| && (n < |t| ==> le(x, t[n]))
    ensures forall i :: n <= i < |t| ==> le(x, t[i])
  {
    assert forall i :: n < i < |t| ==> le(t[n], t[i]);
  }

  lemma {:induction false} InsertArranges<T(!new)>(le: (T, T) -> bool, s: seq<T>, from: seq<nat>, t: seq<T>, n: nat,
    places: seq<nat>, u: seq<T>)
    requires TotalPreorder(le) && s != [] && Arranges(le, s[1..], from, t) && n <= |t| && PutAt(t, n, s[0], u)
    requires (forall i :: 0 <= i < n ==> !le(s[0], t[i])) && (forall i :: n <= i < |t| ==> le(s[0], t[i]))
    requires |places| == |from| + 1 && places[n] == 0
    requires forall k :: 0 <= k < |places| && k != n ==> places[k] == from[if k < n then k else k - 1] + 1
    ensures Arranges(le, s, places, u)
  {
    assert forall k :: 0 <= k < |u| ==> places[k] < |s| && u[k] == s[places[k]];
    forall m: nat | m < |s| ensures m in places {
      if m == 0 {
        assert places[n] == 0;
      } else {
        assert m - 1 in from;
        var k :| 0 <= k < |from| && from[k] == m - 1;
        assert places[if k < n then k else k + 1] == m;
      }
    }
    forall i, j | 0 <= i < j < |u| ensures places[i] != places[j] && SortsBefore(le, s, places[i], places[j]) {
      if i != n && j != n {
        var a, b := if i < n then i else i - 1, if j < n then j else j - 1;
        assert SortsBefore(le, s[1..], from[a], from[b]);
      }
    }
  }

  /** How many elements satisfy a predicate. */
  function CountIf<T>(p: T -> bool, s: seq<T>): nat {
    if s == [] then 0 else (if p(s[0]) then 1 else 0) + CountIf(p, s[1..])
  }

  lemma {:induction false} CountCons<T>(p: T -> bool, x: T, s: seq<T>)
    ensures CountIf(p, [x] + s) == (if p(x) then 1 else 0) + CountIf(p, s)
  {
    assert ([x] + s)[1..] == s;
  }

  lemma {:induction false} InsertCountIf<T>(le: (T, T) -> bool, p: T -> bool, x: T, s: seq<T>)
    ensures CountIf(p, Insert(le, x, s)) == (if p(x) then 1 else 0) + CountIf(p, s)
  {
    hide CountIf;
    if s != [] && !le(x, s[0]) {
      InsertCountIf(le, p, x, s[1..]);
      CountCons(p, s[0], Insert(le, x, s[1..]));
      CountCons(p, s[0], s[1..]);
      assert [s[0]] + s[1..] == s;
    } else {
      CountCons(p, x, s);
      assert [x] + s == Insert(le, x, s);
    }
  }

  /** Sorting does not change how many elements satisfy a predicate. */
  lemma {:induction false} SortCountIf<T>(le: (T, T) -> bool, p: T -> bool, s: seq<T>)
    ensures CountIf(p, Sort(le, s)) == CountIf(p, s)
  {
    if s != [] {
      SortCountIf(le, p, s[1..]);
      InsertCountIf(le, p, s[0], Sort(le, s[1..]));
    }
  }

  lemma {:induction false} SameElements<T>(a: seq<T>, b: seq<T>)
    requires multiset(a) == multiset(b)
    ensures |a| == |b| && forall x :: x in a <==> x in b
  {
    forall x ensures x in a <==> x in b {
      assert x in a <==> x in multiset(a);
      assert x in b <==> x in multiset(b);
    }
    assert |a| == |multiset(a)| && |b| == |multiset(b)|;
  }

  lemma {:induction false} SortDistinct<T(!new)>(le: (T, T) -> bool, s: seq<T>)
    requires Distinct(s)
    ensures Distinct(Sort(le, s)) && forall x :: x in Sort(le, s) <==> x in s
  {
    SameElements(Sort(le, s), s);
    MultisetDistinct(s);
    DistinctMultiset(Sort(le, s));
  }

  lemma {:induction false} MultisetDistinct<T>(s: seq<T>)
    requires Distinct(s)
    ensures forall x :: multiset(s)[x] <= 1
  {
    if s != [] {
      assert s == [s[0]] + s[1..];
      MultisetDistinct(s[1..]);
      assert s[0] !in s[1..];
      assert s[0] !in multiset(s[1..]);
    }
  }

  lemma {:induction false} DistinctMultiset<T>(s: seq<T>)
    requires forall x :: multiset(s)[x] <= 1
    ensures Distinct(s)
  {
    if s != [] {
      assert s == [s[0]] + s[1..];
      assert multiset(s) == multiset{s[0]} + multiset(s[1..]);
      forall x ensures multiset(s[1..])[x] <= 1 {
        assert multiset(s)[x] == multiset{s[0]}[x] + multiset(s[1..])[x];
      }
      DistinctMultiset(s[1..]);
      assert multiset(s)[s[0]] == 1 + multiset(s[1..])[s[0]];
      assert s[0] !in multiset(s[1..]);
      assert s[0] !in s[1..];
      forall j | 0 < j < |s| ensures s[j] != s[0] {
        assert s[j] in s[1..];
      }
    }
  }

  lemma {:induction false} SameMultiset<T>(a: seq<T>, b: seq<T>)
    requires Distinct(a) && Distinct(b) && forall x :: x in a <==> x in b
    ensures multiset(a) == multiset(b)
  {
    MultisetDistinct(a);
    MultisetDistinct(b);
    forall x ensures multiset(a)[x] == multiset(b)[x] {
      assert x in multiset(a) <==> x in a;
      assert x in multiset(b) <==> x in b;
    }
  }

  /** No two different elements are equal in the order. */
  ghost predicate NoTies<T(!new)>(le: (T, T) -> bool, a: seq<T>) {
    forall x, y :: x in a && y in a && le(x, y) && le(y, x) ==> x == y
  }

  lemma {:induction false} SortedHead<T(!new)>(le: (T, T) -> bool, a: seq<T>, b: seq<T>)
    requires Sorted(le, a) && Sorted(le, b) && a != [] && b != [] && NoTies(le, a)
    requires a[0] in b && b[0] in a
    ensures a[0] == b[0]
  {
    var i :| 0 <= i < |b| && b[i] == a[0];
    var j :| 0 <= j < |a| && a[j] == b[0];
    assert i == 0 || le(b[0], b[i]);
    assert j == 0 || le(a[0], a[j]);
  }

  lemma {:induction false} SortedTail<T(!new)>(le: (T, T) -> bool, a: seq<T>)
    requires Sorted(le, a) && a != []
    ensures Sorted(le, a[1..]) && (NoTies(le, a) ==> NoTies(le, a[1..]))
    ensures multiset(a[1..]) == multiset(a) - multiset{a[0]}
  {
    assert a == [a[0]] + a[1..];
    assert forall x :: x in a[1..] ==> x in a;
  }

  lemma {:induction false} SortedPeel<T(!new)>(le: (T, T) -> bool, a: seq<T>, b: seq<T>)
    requires Sorted(le, a) && Sorted(le, b) && multiset(a) == multiset(b) && NoTies(le, a) && a != []
    ensures b != [] && a[0] == b[0] && multiset(a[1..]) == multiset(b[1..])
    ensures Sorted(le, a[1..]) && Sorted(le, b[1..]) && NoTies(le, a[1..])
  {
    hide Sorted, NoTies;
    SameElements(a, b);
    assert a[0] in b && b[0] in a;
    SortedHead(le, a, b);
    SortedTail(le, a);
    SortedTail(le, b);
  }

  /** A sorted list is determined by its elements when no two different elements tie. */
  lemma {:induction false} SortedUnique<T(!new)>(le: (T, T) -> bool, a: seq<T>, b: seq<T>)
    requires Sorted(le, a) && Sorted(le, b) && multiset(a) == multiset(b) && NoTies(le, a)
    ensures a == b
  {
    hide Sorted, NoTies;
    if a == [] {
      SameElements(a, b);
    } else {
      SortedPeel(le, a, b);
      SortedUnique(le, a[1..], b[1..]);
      assert a == [a[0]] + a[1..] && b == [b[0]] + b[1..];
    }
  }

  /** There is one such arrangement. */
  lemma {:induction false} ArrangedOnce<T(!new)>(le: (T, T) -> bool, s: seq<T>, p: seq<nat>, t: seq<T>, q: seq<nat>,
    u: seq<T>)
    requires Arranges(le, s, p, t) && Arranges(le, s, q, u)
    ensures p == q && t == u
  {
    var before := (a: nat, b: nat) => a < |s| && b < |s| && le(s[a], s[b]) && (le(s[b], s[a]) ==> a < b);
    assert Sorted(before, p) && Sorted(before, q) by { hide Distinct; }
    assert NoTies(before, p);
    SameMultiset(p, q);
    SortedUnique(before, p, q);
  }

  // ---------------------------------------------------------------- sets of strings

  predicate IsLeast<T(==, !new)>(le: (T, T) -> bool, s: set<T>, m: T) {
    m in s && forall x :: x in s ==> le(m, x)
  }

  lemma {:induction false} LeastExists<T(!new)>(le: (T, T) -> bool, s: set<T>)
    requires TotalOrder(le) && s != {}
    ensures exists m :: IsLeast(le, s, m)
  {
    var y :| y in s;
    if s == {y} {
      assert IsLeast(le, s, y);
    } else {
      LeastExists(le, s - {y});
      var n :| IsLeast(le, s - {y}, n);
      assert forall x :: x in s ==> x == y || x in s - {y};
      assert IsLeast(le, s, if le(y, n) then y else n);
    }
  }

  /** `sorted` of a set of strings. */
  function SortedStrings(s: set<string>): (r: seq<string>)
    ensures forall x :: x in r <==> x in s
    ensures |r| == |s|
  {
    if s == {} then []
    else
      LeastString(s);
      var m :| IsLeast(StringLe, s, m);
      [m] + SortedStrings(s - {m})
  }

  lemma {:induction false} LeastString(s: set<string>)
    requires s != {}
    ensures exists m :: IsLeast(StringLe, s, m)
    ensures forall m, n :: IsLeast(StringLe, s, m) && IsLeast(StringLe, s, n) ==> m == n
  {
    StringOrder();
    LeastExists(StringLe, s);
  }

  lemma {:induction false} SortedStringsStep(s: set<string>) returns (m: string)
    requires s != {}
    ensures IsLeast(StringLe, s, m) && SortedStrings(s) == [m] + SortedStrings(s - {m})
  {
    hide IsLeast;
    LeastString(s);
    m :| IsLeast(StringLe, s, m);
  }

  lemma {:induction false} ConsSorted(m: string, rest: seq<string>)
    requires Sorted(StringLe, rest) && forall j :: 0 <= j < |rest| ==> StringLe(m, rest[j])
    ensures Sorted(StringLe, [m] + rest)
  {
    hide StringLe;
  }

  /** The result is in strictly increasing order. */
  lemma {:induction false} SortedStringsSorted(s: set<string>)
    ensures Sorted(StringLe, SortedStrings(s)) && Distinct(SortedStrings(s))
  {
    hide StringLe, Sorted;
    if s == {} {
      NothingSorted();
    } else {
      var m := SortedStringsStep(s);
      var rest := SortedStrings(s - {m});
      SortedStringsSorted(s - {m});
      forall j | 0 <= j < |rest| ensures StringLe(m, rest[j]) && m != rest[j] {
        assert rest[j] in s - {m};
      }
      ConsSorted(m, rest);
    }
  }

  lemma {:induction false} NothingSorted()
    ensures Sorted(StringLe, [])
  {
  }
}
