/** SQL LIKE, and the escaping that makes a search term match itself. */
module Like {
  import opened Text

  /** LIKE and lower() fold ASCII letters only. */
  function Fold(c: char): char { if 'A' <= c <= 'Z' then c - 'A' + 'a' else c }

  /** t stands at position i of s, up to ASCII case. */
  predicate FoldAt(s: string, t: string, i: nat) {
    i + |t| <= |s| && forall k | 0 <= k < |t| :: Fold(s[i + k]) == Fold(t[k])
  }

  function FoldAll(s: string): (r: string)
    ensures |r| == |s| && forall i | 0 <= i < |s| :: r[i] == Fold(s[i])
  {
    seq(|s|, i requires 0 <= i < |s| => Fold(s[i]))
  }

  /** text LIKE pattern [ESCAPE escape] */
  predicate Matches(pattern: string, text: string, escape: Option<char>)
    decreases |pattern| + |text|
  {
    if pattern == "" then text == ""
    else if escape == Some(pattern[0]) then
      && |pattern| >= 2 && text != ""
      && Fold(text[0]) == Fold(pattern[1]) && Matches(pattern[2..], text[1..], escape)
    else if pattern[0] == '%' then
      Matches(pattern[1..], text, escape) || (text != "" && Matches(pattern, text[1..], escape))
    else
      && text != ""
      && (pattern[0] == '_' || Fold(text[0]) == Fold(pattern[0])) && Matches(pattern[1..], text[1..], escape)
  }

  /** t occurs somewhere in s, up to ASCII case. */
  predicate Contains(s: string, t: string) {
    exists i: nat | i <= |s| :: FoldAt(s, t, i)
  }

  function EscapeChar(c: char): string {
    if c == '\\' || c == '%' || c == '_' then ['\\', c] else [c]
  }

  function EscapeLike(t: string): string {
    if t == "" then "" else EscapeChar(t[0]) + EscapeLike(t[1..])
  }

  const BACKSLASH: Option<char> := Some('\\')

  /** An escaped term consumes exactly itself. */
  lemma {:induction false} EscapedMatchesItself(t: string, rest: string, s: string)
    ensures Matches(EscapeLike(t) + rest, s, BACKSLASH) <==>
            FoldAt(s, t, 0) && Matches(rest, s[|t|..], BACKSLASH)
  {
    if t == "" {
      assert EscapeLike(t) + rest == rest && s[0..] == s;
    } else {
      var e, tail := EscapeChar(t[0]), EscapeLike(t[1..]) + rest;
      assert EscapeLike(t) + rest == e + tail;
      assert (e + tail)[|e|..] == tail;
      if s != "" {
        EscapedMatchesItself(t[1..], rest, s[1..]);
        FoldAtCons(s, t);
        assert |t| <= |s| ==> s[1..][|t| - 1..] == s[|t|..];
      }
    }
  }

  lemma FoldAtCons(s: string, t: string)
    requires s != "" && t != ""
    ensures FoldAt(s, t, 0) <==> Fold(s[0]) == Fold(t[0]) && FoldAt(s[1..], t[1..], 0)
  {
    if FoldAt(s[1..], t[1..], 0) && Fold(s[0]) == Fold(t[0]) {
      forall k | 0 <= k < |t| ensures Fold(s[k]) == Fold(t[k]) {
        if k > 0 { assert s[1..][k - 1] == s[k] && t[1..][k - 1] == t[k]; }
      }
    }
    if FoldAt(s, t, 0) {
      assert forall k | 0 <= k < |t| - 1 :: s[1..][k] == s[0 + (k + 1)] && t[1..][k] == t[k + 1];
    }
  }

  lemma FoldAtShift(s: string, t: string, i: nat)
    requires s != ""
    ensures FoldAt(s, t, i + 1) <==> FoldAt(s[1..], t, i)
  {
    var r := s[1..];
    assert forall j | 0 <= j < |r| :: r[j] == s[j + 1];
    if FoldAt(r, t, i) {
      forall k | 0 <= k < |t| ensures Fold(s[i + 1 + k]) == Fold(t[k]) {
        assert r[i + k] == s[i + 1 + k];
      }
    }
    if FoldAt(s, t, i + 1) {
      forall k | 0 <= k < |t| ensures Fold(r[i + k]) == Fold(t[k]) {
        assert r[i + k] == s[i + 1 + k];
      }
    }
  }

  lemma ContainsShift(s: string, t: string)
    requires s != ""
    ensures Contains(s, t) <==> FoldAt(s, t, 0) || Contains(s[1..], t)
  {
    if Contains(s, t) {
      var i: nat :| i <= |s| && FoldAt(s, t, i);
      if i > 0 { FoldAtShift(s, t, i - 1); }
    }
    if Contains(s[1..], t) {
      var i: nat :| i <= |s[1..]| && FoldAt(s[1..], t, i);
      FoldAtShift(s, t, i);
    }
  }

  lemma {:induction false} PercentMatchesAll(s: string)
    ensures Matches("%", s, BACKSLASH)
  {
    if s != "" {
      PercentMatchesAll(s[1..]);
    }
  }

  /** The pattern QueryText builds matches exactly the texts containing the term,
      whatever wildcards and backslashes the term is made of. */
  lemma {:induction false} EscapedTermIsSubstringSearch(t: string, s: string)
    ensures Matches("%" + EscapeLike(t) + "%", s, BACKSLASH) <==> Contains(s, t)
  {
    var inner := EscapeLike(t) + "%";
    assert "%" + EscapeLike(t) + "%" == "%" + inner;
    assert ("%" + inner)[1..] == inner;
    EscapedMatchesItself(t, "%", s);
    if |t| <= |s| {
      PercentMatchesAll(s[|t|..]);
    }
    if s != "" {
      EscapedTermIsSubstringSearch(t, s[1..]);
      ContainsShift(s, t);
    }
  }

  /** Terms that differ only in ASCII case occur in the same texts. */
  lemma FoldedTermOccursAlike(s: string, t: string, u: string)
    requires FoldAll(t) == FoldAll(u)
    ensures Contains(s, t) <==> Contains(s, u)
  {
    assert |t| == |FoldAll(t)| == |FoldAll(u)| == |u|;
    assert forall k | 0 <= k < |t| :: Fold(t[k]) == FoldAll(t)[k] == FoldAll(u)[k] == Fold(u[k]);
    assert forall i: nat | i <= |s| :: FoldAt(s, t, i) <==> FoldAt(s, u, i);
  }

  lemma SameLengthOccursAtStart(s: string, t: string)
    requires |s| == |t|
    ensures Contains(s, t) <==> FoldAll(s) == FoldAll(t)
  {
    assert forall i: nat | 0 < i <= |s| :: !FoldAt(s, t, i) || t == "";
    if FoldAt(s, t, 0) {
      forall k | 0 <= k < |t| ensures FoldAll(s)[k] == FoldAll(t)[k] {
        assert Fold(s[0 + k]) == Fold(t[k]);
      }
    }
    if FoldAll(s) == FoldAll(t) {
      assert forall k | 0 <= k < |t| :: Fold(s[0 + k]) == FoldAll(s)[k] == FoldAll(t)[k] == Fold(t[k]);
      assert FoldAt(s, t, 0);
    }
  }

  lemma FoldIdempotent(c: char)
    ensures Fold(Fold(c)) == Fold(c)
  {}

  /** Searching the lower-cased column is searching the column. */
  lemma LoweringIsIrrelevant(s: string, t: string)
    ensures Contains(FoldAll(s), t) <==> Contains(s, t)
  {
    forall j | 0 <= j < |s| ensures Fold(FoldAll(s)[j]) == Fold(s[j]) {
      FoldIdempotent(s[j]);
    }
    assert forall i: nat | i <= |s| :: FoldAt(FoldAll(s), t, i) <==> FoldAt(s, t, i);
  }
}
