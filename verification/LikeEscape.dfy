/**
  Searching messages with SQL LIKE: what is special to LIKE in a keyword is escaped.

  `Like` is SQLite's LIKE with the escape character backslash: `%` is any text, `_` any character,
  and the case of ASCII letters does not matter.
 */
module LikeEscape {
  import opened Text
  import opened Wrappers

  const ESCAPE := '\\'

  predicate Special(c: char) {
    c == '\\' || c == '%' || c == '_'
  }

  function Fold(c: char): char {
    if 'A' <= c <= 'Z' then c + 32 as char else c
  }

  /** Two characters count as equal when they are, or when they are the two cases of one ASCII letter. */
  lemma FoldIff(c: char, d: char)
    ensures Fold(c) == Fold(d) <==>
              c == d || ('A' <= c <= 'Z' && d == c + 32 as char) || ('A' <= d <= 'Z' && c == d + 32 as char)
  {
  }

  predicate FoldEqual(a: string, b: string) {
    |a| == |b| && forall i :: 0 <= i < |a| ==> Fold(a[i]) == Fold(b[i])
  }

  // --- Escaping ---------------------------------------------------------------------------------------

  function EscapeChar(c: char): string {
    if Special(c) then [ESCAPE, c] else [c]
  }

  function Escaped(s: string): string {
    if s == "" then "" else EscapeChar(s[0]) + Escaped(s[1..])
  }

  lemma {:induction false} EscapedSnoc(s: string, c: char)
    ensures Escaped(s + [c]) == Escaped(s) + EscapeChar(c)
  {
    if s == "" {
      assert s + [c] == [c] && [c][1..] == "";
    } else {
      assert (s + [c])[1..] == s[1..] + [c];
      EscapedSnoc(s[1..], c);
    }
  }

  /** `escape_like`. */
  method EscapeLike(s: string) returns (out: string)
    ensures out == Escaped(s)
  {
    out := "";
    for i := 0 to |s|
      invariant out == Escaped(s[..i])
    {
      EscapedSnoc(s[..i], s[i]);
      assert s[..i + 1] == s[..i] + [s[i]];
      if Special(s[i]) {
        out := out + [ESCAPE];
      }
      out := out + [s[i]];
    }
    assert s[..|s|] == s;
  }

  /** The pattern that `search_messages` binds. */
  method LikePattern(keyword: string) returns (pattern: string)
    ensures pattern == Pattern(keyword)
  {
    var escaped := EscapeLike(keyword);
    pattern := "%" + escaped + "%";
  }

  function Pattern(keyword: string): string {
    "%" + Escaped(keyword) + "%"
  }

  // --- LIKE -------------------------------------------------------------------------------------------

  predicate Like(p: string, s: string)
    decreases |p|, |s|
  {
    if p == "" then s == ""
    else if p[0] == '%' then Like(p[1..], s) || (s != "" && Like(p, s[1..]))
    else if p[0] == ESCAPE then
      |p| > 1 && s != "" && Fold(p[1]) == Fold(s[0]) && Like(p[2..], s[1..])
    else
      s != "" && (p[0] == '_' || Fold(p[0]) == Fold(s[0])) && Like(p[1..], s[1..])
  }

  /** `%` stands for any text. */
  lemma {:induction false} LikeAny(p: string, s: string)
    requires p != "" && p[0] == '%'
    ensures Like(p, s) <==> exists k :: 0 <= k <= |s| && Like(p[1..], s[k..])
    decreases |s|
  {
    assert s[0..] == s;
    if s != "" {
      LikeAny(p, s[1..]);
      forall k | 1 <= k <= |s| ensures s[k..] == s[1..][k - 1..] {
      }
      if k :| 0 <= k <= |s| && Like(p[1..], s[k..]) {
        if k > 0 {
          assert Like(p[1..], s[1..][k - 1..]);
        }
      }
      if k :| 0 <= k <= |s[1..]| && Like(p[1..], s[1..][k..]) {
        assert s[1..][k..] == s[k + 1..];
      }
    }
  }

  /** An escaped text in front of a pattern matches itself, up to case, and leaves the rest. */
  lemma {:induction false} LikeEscaped(kw: string, p: string, s: string)
    ensures Like(Escaped(kw) + p, s) <==> |kw| <= |s| && FoldEqual(s[..|kw|], kw) && Like(p, s[|kw|..])
  {
    if kw == "" {
      assert Escaped(kw) + p == p && s[0..] == s;
    } else {
      assert Escaped(kw) + p == EscapeChar(kw[0]) + (Escaped(kw[1..]) + p);
      if s != "" {
        LikeEscaped(kw[1..], p, s[1..]);
        if |kw| <= |s| {
          assert s[1..][|kw| - 1..] == s[|kw|..];
          assert s[..|kw|][1..] == s[1..][..|kw| - 1];
        }
      }
    }
  }

  /** The keyword occurs somewhere in the content, up to the case of ASCII letters. */
  ghost predicate Contains(content: string, keyword: string) {
    exists k :: OccursAt(content, keyword, k)
  }

  predicate OccursAt(content: string, keyword: string, k: int) {
    0 <= k <= |content| - |keyword| && FoldEqual(content[k..k + |keyword|], keyword)
  }

  lemma LikeAll(s: string)
    ensures Like("%", s)
  {
    LikeAny("%", s);
    assert "%"[1..] == "" && s[|s|..] == "";
  }

  /** The search finds exactly the messages that contain the keyword, whatever is in it. */
  lemma PatternFindsExactly(keyword: string, content: string)
    ensures Like(Pattern(keyword), content) <==> Contains(content, keyword)
  {
    var p := Pattern(keyword);
    assert p[1..] == Escaped(keyword) + "%";
    LikeAny(p, content);
    forall k | 0 <= k <= |content|
      ensures Like(p[1..], content[k..]) <==> OccursAt(content, keyword, k)
    {
      var rest := content[k..];
      LikeEscaped(keyword, "%", rest);
      if |keyword| <= |rest| {
        LikeAll(rest[|keyword|..]);
        assert rest[..|keyword|] == content[k..k + |keyword|];
      }
    }
    if Contains(content, keyword) {
      var k :| OccursAt(content, keyword, k);
      assert Like(p[1..], content[k..]);
    }
  }

  /** Without wildcards around it an escaped text matches itself only. */
  lemma EscapedMatchesItself(keyword: string, content: string)
    ensures Like(Escaped(keyword), content) <==> FoldEqual(content, keyword)
  {
    LikeEscaped(keyword, "", content);
    assert Escaped(keyword) + "" == Escaped(keyword);
    if |keyword| <= |content| {
      assert |content| == |keyword| ==> content[..|keyword|] == content;
    }
  }

  /** Unescaped, the keyword `_` would find every message that is not empty. */
  lemma UnescapedFindsMore(content: string)
    ensures Like("%_%", content) <==> content != ""
  {
    LikeAny("%_%", content);
    assert "%_%"[1..] == "_%" && "_%"[1..] == "%" && content[0..] == content;
    if content != "" {
      LikeAll(content[1..]);
      assert Like("_%", content[0..]);
    }
  }

  // --- Longer keywords --------------------------------------------------------------------------------

  function Doubled(s: string): string {
    if s == "" then "" else (if s[0] == '"' then "\"\"" else [s[0]]) + Doubled(s[1..])
  }

  /** The full-text expression for a keyword of three characters or more: one string in double quotes. */
  function Quoted(keyword: string): string {
    "\"" + Doubled(keyword) + "\""
  }

  /** How FTS5 reads a string after its opening quote: the string, and what comes after the closing quote. */
  function ReadString(s: string): Option<(string, string)> {
    if s == "" then None
    else if s[0] != '"' then
      match ReadString(s[1..])
      case None => None
      case Some((text, rest)) => Some(([s[0]] + text, rest))
    else if |s| > 1 && s[1] == '"' then
      match ReadString(s[2..])
      case None => None
      case Some((text, rest)) => Some((['"'] + text, rest))
    else Some(("", s[1..]))
  }

  lemma {:induction false} ReadDoubled(keyword: string)
    ensures ReadString(Doubled(keyword) + "\"") == Some((keyword, ""))
  {
    var s := Doubled(keyword) + "\"";
    if keyword == "" {
      assert s == ['"'] && s[1..] == "";
    } else {
      ReadDoubled(keyword[1..]);
      var head := if keyword[0] == '"' then "\"\"" else [keyword[0]];
      assert s == head + (Doubled(keyword[1..]) + "\"");
      assert s[|head|..] == Doubled(keyword[1..]) + "\"";
      assert keyword == [keyword[0]] + keyword[1..];
    }
  }

  /** Whatever quotes a keyword contains, the expression is one string, and that string is the keyword. */
  lemma QuotedIsOneString(keyword: string)
    ensures Quoted(keyword)[0] == '"' && ReadString(Quoted(keyword)[1..]) == Some((keyword, ""))
  {
    ReadDoubled(keyword);
    assert Quoted(keyword)[1..] == Doubled(keyword) + "\"";
  }

  // --- Which search a keyword gets --------------------------------------------------------------------

  /** What `search_messages` binds for the keyword: nothing, a LIKE pattern, or a full-text expression. */
  datatype Search = Everything | ByPattern(pattern: string) | ByExpression(expr: string)

  function SearchFor(keyword: Option<string>): Search {
    if keyword.None? || Trim(keyword.value) == "" then Everything
    else if |Trim(keyword.value)| >= 3 then ByExpression(Quoted(Trim(keyword.value)))
    else ByPattern(Pattern(Trim(keyword.value)))
  }

  method BindKeyword(keyword: Option<string>) returns (search: Search)
    ensures search == SearchFor(keyword)
  {
    if keyword.None? {
      return Everything;
    }
    var kw := Trim(keyword.value);
    if kw == "" {
      return Everything;
    }
    if |kw| >= 3 {
      return ByExpression("\"" + Doubled(kw) + "\"");
    }
    var pattern := LikePattern(kw);
    search := ByPattern(pattern);
  }

  /**
    Every keyword is searched for as it is, but for the space around it: one or two characters by a
    pattern that finds the contents that contain them, more by an expression that is one string. Only
    without a keyword is everything listed.
   */
  lemma SearchMeans(keyword: Option<string>, content: string)
    ensures SearchFor(keyword).Everything? <==> keyword.None? || |Trim(keyword.value)| == 0
    ensures SearchFor(keyword).ByPattern? <==> keyword.Some? && 1 <= |Trim(keyword.value)| <= 2
    ensures SearchFor(keyword).ByPattern? ==>
              (Like(SearchFor(keyword).pattern, content) <==> Contains(content, Trim(keyword.value)))
    ensures SearchFor(keyword).ByExpression? ==>
              var e := SearchFor(keyword).expr;
              e != "" && e[0] == '"' && ReadString(e[1..]) == Some((Trim(keyword.value), ""))
  {
    if keyword.Some? {
      PatternFindsExactly(Trim(keyword.value), content);
      QuotedIsOneString(Trim(keyword.value));
    }
  }
}
