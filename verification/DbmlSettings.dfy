/** The settings behind a column, as the DBML exporter writes them and the importer searches them. */
module DbmlSettings {
  import opened Dicts
  import opened Text
  import opened DbmlLines
  import opened Dbml

  /** The setting for a comment. */
  function Note(comment: string): string {
    "note: '" + EscapeString(comment) + "'"
  }

  /** The setting for the keys. */
  function KeySetting(c: Column): string {
    if c.isPk then "pk" else if c.isNotNull then "not null" else ""
  }

  function SettingsOf(c: Column): string {
    Join(SettingList(c), ", ")
  }

  /** What stands before the note. */
  function Lead(c: Column): string {
    if KeySetting(c) == "" then "" else KeySetting(c) + ", "
  }

  lemma {:induction false} SettingsText(c: Column)
    ensures SettingsOf(c) == if c.comment == "" then KeySetting(c) else Lead(c) + Note(c.comment)
  {
    hide EscapeString;
    var key, note := KeySetting(c), Note(c.comment);
    if key == "" {
      assert SettingList(c) == if c.comment == "" then [] else [note];
      assert "" + note == note;
    } else if c.comment == "" {
      assert SettingList(c) == [key];
    } else {
      assert SettingList(c) == [key] + [note] == [key, note];
      assert [key, note][1..] == [note] && Join([note], ", ") == note;
    }
  }

  // ---------------------------------------------------------------- searching without a note

  lemma {:induction false} NoInline(s: string)
    requires forall k :: 0 <= k < |s| ==> s[k] != 'r' && s[k] != 'R'
    ensures FindInline(s) == None
  {
    if s != "" {
      if |s| >= 4 {
        assert LowerAll(s[..4])[0] == Lower(s[0]);
        assert "ref:"[0] == 'r';
      }
      assert !StartsWith(s, "ref:");
      NoInline(s[1..]);
    }
  }

  lemma {:induction false} NoPrimaryKey(s: string)
    requires forall k :: 0 <= k < |s| ==> s[k] != 'p'
    ensures !SaysPrimaryKey(s)
  {
    forall k: nat | k <= |s| ensures !WordAt(s, "pk", k) && !PrimaryKeyAt(s, k) {
      if k + 2 <= |s| {
        assert s[k..k + 2][0] == s[k] && "pk"[0] == 'p';
      }
      if k + 7 <= |s| {
        assert s[k..k + 7][0] == s[k] && "primary"[0] == 'p';
      }
    }
  }

  lemma {:induction false} PrimaryKeySettings()
    ensures LowerAll("pk") == "pk" && SaysPrimaryKey("pk") && FindInline("pk") == None
    ensures !Contains("pk", "default:")
  {
    assert "pk"[0..0 + 2] == "pk";
    assert WordAt("pk", "pk", 0);
    NoInline("pk");
  }

  lemma {:induction false} AlreadyLower(s: string)
    requires forall k :: 0 <= k < |s| ==> Lower(s[k]) == s[k]
    ensures LowerAll(s) == s
  {
  }

  lemma {:induction false} NotNullSettings(s: string)
    requires s == "not null"
    ensures LowerAll(s) == s && !SaysPrimaryKey(s) && FindInline(s) == None
    ensures Contains(s, "not null") && !Contains(s, "default:")
  {
    hide FindInline, SaysPrimaryKey, LowerAll;
    AlreadyLower(s);
    NoInline(s);
    NoPrimaryKey(s);
    assert s[0..0 + |s|] == s && OccursAt(s, s, 0);
    var other := "default:";
    assert |other| == 8 && other[0] == 'd' && s[0..8][0] == 'n';
    assert forall k :: OccursAt(s, other, k) ==> k == 0;
  }

  lemma {:induction false} EmptySettings()
    ensures LowerAll("") == "" && !SaysPrimaryKey("") && FindInline("") == None
    ensures !Contains("", "not null") && !Contains("", "default:")
  {
    NoPrimaryKey("");
  }

  // ---------------------------------------------------------------- searching behind a lead

  lemma {:induction false} OccursBehind(p: string, x: string, t: string, k: int)
    requires t != "" && t[0] !in p
    ensures OccursAt(p + x, t, k) <==> |p| <= k && OccursAt(x, t, k - |p|)
  {
    var s := p + x;
    if 0 <= k <= |s| - |t| {
      assert s[k..k + |t|][0] == s[k];
      if k < |p| {
        assert s[k] == p[k];
      } else {
        assert s[k..k + |t|] == x[k - |p|..k - |p| + |t|];
      }
    }
  }

  lemma {:induction false} ContainsBehind(p: string, x: string, t: string)
    requires t != "" && t[0] !in p
    ensures Contains(p + x, t) <==> Contains(x, t)
  {
    hide OccursAt;
    if k :| 0 <= k <= |p + x| && OccursAt(p + x, t, k) {
      OccursBehind(p, x, t, k);
      assert OccursAt(x, t, k - |p|);
    }
    if k :| 0 <= k <= |x| && OccursAt(x, t, k) {
      OccursBehind(p, x, t, k + |p|);
      assert OccursAt(p + x, t, k + |p|);
    }
  }

  lemma {:induction false} WordBehind(p: string, x: string, k: nat)
    requires 'p' !in p && (p == "" || !IsWordChar(p[|p| - 1]))
    ensures WordAt(p + x, "pk", k) <==> |p| <= k && WordAt(x, "pk", k - |p|)
  {
    OccursBehind(p, x, "pk", k);
    var s := p + x;
    assert |p| < k <= |s| ==> s[k - 1] == x[k - |p| - 1];
    assert k == |p| > 0 ==> s[k - 1] == p[|p| - 1];
    assert |p| <= k && k + 2 < |s| ==> s[k + 2] == x[k - |p| + 2];
  }

  lemma {:induction false} KeyBehind(p: string, x: string, k: nat)
    requires 'p' !in p
    ensures PrimaryKeyAt(p + x, k) <==> |p| <= k && PrimaryKeyAt(x, k - |p|)
  {
    OccursBehind(p, x, "primary", k);
    hide StripLeft, OccursAt;
    if |p| <= k && k + 7 <= |p + x| {
      assert (p + x)[k + 7..] == x[k - |p| + 7..];
    }
    if OccursAt(p + x, "primary", k) {
      OccursFits(p + x, "primary", k);
    }
    if |p| <= k && OccursAt(x, "primary", k - |p|) {
      OccursFits(x, "primary", k - |p|);
    }
  }

  lemma {:induction false} OccursFits(s: string, t: string, k: int)
    requires OccursAt(s, t, k)
    ensures 0 <= k && k + |t| <= |s|
  {
  }

  lemma {:induction false} PrimaryKeyBehind(p: string, x: string)
    requires 'p' !in p && (p == "" || !IsWordChar(p[|p| - 1]))
    ensures SaysPrimaryKey(p + x) <==> SaysPrimaryKey(x)
  {
    hide WordAt, PrimaryKeyAt;
    if k: nat :| k <= |p + x| && (WordAt(p + x, "pk", k) || PrimaryKeyAt(p + x, k)) {
      WordBehind(p, x, k);
      KeyBehind(p, x, k);
      assert WordAt(x, "pk", k - |p|) || PrimaryKeyAt(x, k - |p|);
    }
    if k: nat :| k <= |x| && (WordAt(x, "pk", k) || PrimaryKeyAt(x, k)) {
      WordBehind(p, x, k + |p|);
      KeyBehind(p, x, k + |p|);
      assert WordAt(p + x, "pk", k + |p|) || PrimaryKeyAt(p + x, k + |p|);
    }
  }

  lemma {:induction false} InlineBehind(p: string, x: string)
    requires forall k :: 0 <= k < |p| ==> Lower(p[k]) != 'r'
    ensures FindInline(p + x) == FindInline(x)
  {
    if p == "" {
      assert p + x == x;
    } else {
      var s := p + x;
      assert s[1..] == p[1..] + x;
      InlineBehind(p[1..], x);
      if |s| >= 4 {
        assert LowerAll(s[..4])[0] == Lower(s[0]) && "ref:"[0] == 'r';
      }
      assert !StartsWith(s, "ref:");
      hide StartsWith, Path;
    }
  }

  lemma {:induction false} LowerBehind(p: string, x: string)
    requires forall k :: 0 <= k < |p| ==> Lower(p[k]) == p[k]
    ensures LowerAll(p + x) == p + LowerAll(x)
  {
    if p == "" {
      assert p + x == x;
    } else {
      assert (p + x)[1..] == p[1..] + x;
      LowerBehind(p[1..], x);
      assert p == [p[0]] + p[1..];
    }
  }

  // ---------------------------------------------------------------- what the importer takes the settings for

  /** The importer's searches in the settings of a column. */
  datatype Features = Features(isPk: bool, isNotNull: bool, hasDefault: bool, inline: Option<(char, string)>)

  function Searched(settings: string): Features {
    var lower := LowerAll(settings);
    Features(SaysPrimaryKey(lower), SaysPrimaryKey(lower) || Contains(lower, "not null"), Contains(lower, "default:"),
          FindInline(settings))
  }

  lemma {:induction false} KeyAlone(c: Column)
    ensures Searched(KeySetting(c)) == Features(c.isPk, c.isPk || c.isNotNull, false, None)
  {
    hide FindInline, SaysPrimaryKey, LowerAll, Contains;
    if c.isPk {
      PrimaryKeySettings();
    } else if c.isNotNull {
      NotNullSettings("not null");
    } else {
      EmptySettings();
    }
  }

  lemma {:induction false} LeadsAreLower(p: string)
    requires p == "" || p == "pk, " || p == "not null, "
    ensures forall k :: 0 <= k < |p| ==> Lower(p[k]) == p[k] && Lower(p[k]) != 'r' && p[k] != 'd'
    ensures p == "" || !IsWordChar(p[|p| - 1])
    ensures p != "pk, " ==> 'p' !in p
  {
    if p == "not null, " {
      var chars := ['n', 'o', 't', ' ', 'n', 'u', 'l', 'l', ',', ' '];
      assert p == chars;
    }
  }

  lemma {:induction false} PkLeads(x: string)
    ensures SaysPrimaryKey("pk, " + x)
  {
    var s := "pk, " + x;
    assert s[0..0 + 2] == "pk" && s[2] == ',';
    assert WordAt(s, "pk", 0);
  }

  lemma {:induction false} NotNullLeads(x: string)
    ensures Contains("not null, " + x, "not null")
  {
    var s, t := "not null, " + x, "not null";
    var chars := ['n', 'o', 't', ' ', 'n', 'u', 'l', 'l'];
    assert t == chars;
    assert forall k :: 0 <= k < 8 ==> s[k] == chars[k];
    assert s[0..0 + 8] == t;
    assert OccursAt(s, t, 0);
  }

  /** A note adds what the same searches find in it. */
  lemma {:induction false} NoteBehind(c: Column, n: string)
    ensures var found, note := Searched(Lead(c) + n), Searched(n);
      && (found.isPk <==> c.isPk || note.isPk)
      && (found.isNotNull <==> c.isPk || c.isNotNull || note.isNotNull)
      && found.hasDefault == note.hasDefault && found.inline == note.inline
  {
    var p, x := Lead(c), LowerAll(n);
    assert p == if c.isPk then "pk, " else if c.isNotNull then "not null, " else "";
    LeadsAreLower(p);
    hide LowerAll, SaysPrimaryKey, Contains, FindInline, Lead;
    LowerBehind(p, n);
    InlineBehind(p, n);
    ContainsBehind(p, x, "default:");
    if c.isPk {
      PkLeads(x);
    } else {
      PrimaryKeyBehind(p, x);
      if c.isNotNull {
        NotNullLeads(x);
      } else {
        assert p + x == x;
      }
    }
  }

  /** The comment of a column keeps what the column is: it does not read like another setting. */
  predicate CommentKeeps(c: Column) {
    c.comment == ""
    || (var note := Searched(Note(c.comment));
        && (note.isPk ==> c.isPk) && (note.isNotNull ==> c.isPk || c.isNotNull)
        && !note.hasDefault && note.inline == None)
  }

  /** The settings of a column say what it is exactly when its comment keeps it. */
  lemma {:induction false} SettingsSayIff(c: Column)
    ensures Searched(SettingsOf(c)) == Features(c.isPk, c.isPk || c.isNotNull, false, None) <==> CommentKeeps(c)
  {
    hide Searched, SettingsOf, KeySetting, Lead, Note;
    SettingsText(c);
    if c.comment == "" {
      KeyAlone(c);
    } else {
      NoteBehind(c, Note(c.comment));
    }
  }

  /** A comment with the word `pk` makes its column a primary key. */
  lemma {:induction false} PkInComment(c: Column)
    requires c.comment == "pk" && !c.isPk
    ensures !CommentKeeps(c)
  {
    var p, x := "note: '", "pk'";
    PkEscaped();
    assert Note("pk") == p + x;
    assert p == ['n', 'o', 't', 'e', ':', ' ', '\''];
    assert x[0..0 + 2] == "pk" && WordAt(x, "pk", 0);
    AlreadyLower(x);
    hide EscapeString, FindInline, LowerAll;
    LowerBehind(p, x);
    PrimaryKeyBehind(p, x);
  }

  lemma {:induction false} PkEscaped()
    ensures EscapeString("pk") == "pk"
  {
    assert "pk"[1..] == "k" && "k"[1..] == "";
    assert EscapeString("k") == "k";
  }
}
