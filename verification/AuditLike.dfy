/** Text search in the audit log: escaping a user's text so that SQL LIKE treats it
    literally (escapeLike in internal/audit/store.go). */
module AuditLike {
  import opened Common

  // ------------------------------------------------------------ SQLite's LIKE

  /** LIKE folds the case of ASCII letters only. */
  function Fold(c: char): char {
    if 'A' <= c <= 'Z' then (c as int + 32) as char else c
  }

  /** text LIKE pattern [ESCAPE escape]: % stands for any run of characters, _ for any
      one, and an escaped character for itself. */
  predicate Like(pattern: string, text: string, escape: Option<char>)
    decreases |pattern| + |text|
  {
    if pattern == [] then text == []
    else if escape == Some(pattern[0]) then
      |pattern| > 1 && text != [] && Fold(text[0]) == Fold(pattern[1]) && Like(pattern[2..], text[1..], escape)
    else if pattern[0] == '%' then
      Like(pattern[1..], text, escape) || (text != [] && Like(pattern, text[1..], escape))
    else
      text != [] && (pattern[0] == '_' || Fold(text[0]) == Fold(pattern[0])) && Like(pattern[1..], text[1..], escape)
  }

  // --------------------------------------------------------- what is searched for

  predicate FoldEqual(a: string, b: string) {
    |a| == |b| && forall i :: 0 <= i < |a| ==> Fold(a[i]) == Fold(b[i])
  }

  /** t begins with s, up to ASCII case. */
  predicate StartsWith(t: string, s: string) {
    |s| <= |t| && FoldEqual(t[..|s|], s)
  }

  /** t contains s, up to ASCII case. */
  predicate Contains(t: string, s: string) {
    exists i :: 0 <= i <= |t| && StartsWith(t[i..], s)
  }

  // ----------------------------------------------------------------- escaping

  /** The replacement of one character by the source's single-pass replacer. */
  function EscapeChar(c: char): string {
    if c == '\\' || c == '%' || c == '_' then ['\\', c] else [c]
  }

  function EscapeLike(s: string): string {
    if s == [] then [] else EscapeChar(s[0]) + EscapeLike(s[1..])
  }

  const BACKSLASH := Some('\\')

  lemma {:induction false} EscapedCharIsLiteral(c: char, p: string, t: string)
    ensures Like(EscapeChar(c) + p, t, BACKSLASH) <==> t != [] && Fold(t[0]) == Fold(c) && Like(p, t[1..], BACKSLASH)
  {
    var pattern := EscapeChar(c) + p;
    assert pattern[|EscapeChar(c)|..] == p;
  }

  /** An escaped text is a pattern for itself: followed by anything, it matches that text
      followed by a match of the rest. */
  lemma {:induction false} EscapedIsLiteral(s: string, rest: string, t: string)
    ensures Like(EscapeLike(s) + rest, t, BACKSLASH) <==> StartsWith(t, s) && Like(rest, t[|s|..], BACKSLASH)
  {
    if s == [] {
      assert EscapeLike(s) + rest == rest && t[0..] == t;
    } else {
      var p := EscapeLike(s[1..]) + rest;
      assert EscapeLike(s) + rest == EscapeChar(s[0]) + p;
      EscapedCharIsLiteral(s[0], p, t);
      if t != [] {
        EscapedIsLiteral(s[1..], rest, t[1..]);
        StartsWithStep(t, s);
        assert |s| <= |t| ==> t[1..][|s| - 1..] == t[|s|..];
      }
    }
  }

  lemma StartsWithStep(t: string, s: string)
    requires t != [] && s != []
    ensures StartsWith(t, s) <==> Fold(t[0]) == Fold(s[0]) && StartsWith(t[1..], s[1..])
  {
    if |s| <= |t| {
      assert forall i :: 0 <= i < |s| - 1 ==> t[1..][..|s| - 1][i] == t[..|s|][i + 1] && s[1..][i] == s[i + 1];
      assert forall i :: 1 <= i < |s| ==> t[..|s|][i] == t[1..][..|s| - 1][i - 1] && s[i] == s[1..][i - 1];
    }
  }

  /** A trailing % matches whatever is left. */
  lemma {:induction false} PercentMatchesAll(t: string, escape: Option<char>)
    requires escape != Some('%')
    ensures Like("%", t, escape)
  {
    assert "%"[1..] == "";
    if t != [] {
      PercentMatchesAll(t[1..], escape);
    }
  }

  /** A leading % lets the rest of the pattern start anywhere. */
  lemma {:induction false} PercentSlides(p: string, t: string)
    ensures Like("%" + p, t, BACKSLASH) <==> exists i :: 0 <= i <= |t| && Like(p, t[i..], BACKSLASH)
  {
    assert ("%" + p)[1..] == p && t[0..] == t;
    if t != [] {
      PercentSlides(p, t[1..]);
      assert forall i :: 0 <= i < |t| ==> t[1..][i..] == t[i + 1..];
      if exists i :: 0 <= i <= |t| && Like(p, t[i..], BACKSLASH) {
        var i :| 0 <= i <= |t| && Like(p, t[i..], BACKSLASH);
        if i > 0 {
          assert Like(p, t[1..][i - 1..], BACKSLASH);
        }
      }
      if exists i :: 0 <= i <= |t[1..]| && Like(p, t[1..][i..], BACKSLASH) {
        var i :| 0 <= i <= |t[1..]| && Like(p, t[1..][i..], BACKSLASH);
        assert Like(p, t[i + 1..], BACKSLASH);
      }
    } else {
      assert forall i :: 0 <= i <= |t| ==> t[i..] == t;
    }
  }

  /** The search the audit list runs is literal substring search up to ASCII case, for
      any text at all: per cents, underscores and backslashes included. */
  lemma SearchIsSubstring(s: string, t: string)
    ensures Like("%" + EscapeLike(s) + "%", t, BACKSLASH) <==> Contains(t, s)
  {
    var p := EscapeLike(s) + "%";
    assert "%" + EscapeLike(s) + "%" == "%" + p;
    PercentSlides(p, t);
    forall i | 0 <= i <= |t|
      ensures Like(p, t[i..], BACKSLASH) <==> StartsWith(t[i..], s)
    {
      EscapedIsLiteral(s, "%", t[i..]);
      if StartsWith(t[i..], s) {
        PercentMatchesAll(t[i..][|s|..], BACKSLASH);
      }
    }
  }

  // --------------------------------------------------- the action prefix search

  /** What one pattern character accepts when there is no escape character. */
  predicate Accepts(p: char, c: char) {
    p == '%' || p == '_' || Fold(p) == Fold(c)
  }

  /** A pattern matches any text it accepts character by character, extended at will. */
  lemma {:induction false} PointwiseMatch(p: string, t: string)
    requires |p| <= |t| && forall i :: 0 <= i < |p| ==> Accepts(p[i], t[i])
    ensures Like(p + "%", t, None)
  {
    if p == [] {
      assert p + "%" == "%";
      PercentMatchesAll(t, None);
    } else {
      assert (p + "%")[1..] == p[1..] + "%";
      PointwiseMatch(p[1..], t[1..]);
      if p[0] == '%' {
        assert (p + "%") == "%" + (p[1..] + "%");
        assert Like(p[1..] + "%", t[1..], None);
        assert Like(p + "%", t[1..], None);
      }
    }
  }

  lemma {:induction false} PlainPrefixIsLiteral(p: string, t: string)
    requires '%' !in p && '_' !in p
    ensures Like(p + "%", t, None) <==> StartsWith(t, p)
  {
    if p == [] {
      assert p + "%" == "%";
      PercentMatchesAll(t, None);
    } else {
      assert (p + "%")[1..] == p[1..] + "%";
      if t != [] {
        PlainPrefixIsLiteral(p[1..], t[1..]);
        StartsWithStep(t, p);
      }
    }
  }

  /** A trailing * in the action filter is turned into a LIKE pattern without escaping.
      It is a prefix test, up to ASCII case, exactly for the prefixes without a wildcard. */
  lemma ActionPrefixIff(p: string)
    ensures (forall t :: Like(p + "%", t, None) <==> StartsWith(t, p)) <==> '%' !in p && '_' !in p
  {
    if '%' !in p && '_' !in p {
      forall t
        ensures Like(p + "%", t, None) <==> StartsWith(t, p)
      {
        PlainPrefixIsLiteral(p, t);
      }
    } else {
      var i :| 0 <= i < |p| && (p[i] == '%' || p[i] == '_');
      var t := p[i := 'x'];
      PointwiseMatch(p, t);
      assert t[..|p|][i] == 'x';
      assert Like(p + "%", t, None) && !StartsWith(t, p);
    }
  }

  // ---------------------------------------------------- the search, in figures

  /** The same character, or the same letter of ASCII in the other case. */
  predicate Alike(a: char, b: char) {
    a == b || (65 <= a as int <= 90 && b as int == a as int + 32) || (65 <= b as int <= 90 && a as int == b as int + 32)
  }

  lemma FoldMeans(a: char, b: char)
    ensures Fold(a) == Fold(b) <==> Alike(a, b)
  {
  }

  /** s stands at position i of t. */
  predicate StandsAt(t: string, s: string, i: int) {
    0 <= i && i + |s| <= |t| && forall k :: 0 <= k < |s| ==> Alike(t[i + k], s[k])
  }

  lemma StartsWithMeans(t: string, s: string, i: nat)
    requires i <= |t|
    ensures StartsWith(t[i..], s) <==> StandsAt(t, s, i)
  {
    if i + |s| <= |t| {
      forall k | 0 <= k < |s|
        ensures t[i..][..|s|][k] == t[i + k]
        ensures Fold(t[i + k]) == Fold(s[k]) <==> Alike(t[i + k], s[k])
      {
        FoldMeans(t[i + k], s[k]);
      }
    }
  }

  /** What the search finds, and what a prefix without a wildcard does. */
  lemma ContainsMeans(t: string, s: string)
    ensures Contains(t, s) <==> exists i :: StandsAt(t, s, i)
  {
    if Contains(t, s) {
      var i :| 0 <= i <= |t| && StartsWith(t[i..], s);
      StartsWithMeans(t, s, i);
    }
    if exists i :: StandsAt(t, s, i) {
      var i :| StandsAt(t, s, i);
      StartsWithMeans(t, s, i);
    }
  }

  lemma PrefixMeans(p: string, t: string)
    requires '%' !in p && '_' !in p
    ensures Like(p + "%", t, None) <==> StandsAt(t, p, 0)
  {
    PlainPrefixIsLiteral(p, t);
    StartsWithMeans(t, p, 0);
    assert t[0..] == t;
  }
}
