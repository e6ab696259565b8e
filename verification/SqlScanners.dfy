/** The skip-ahead loops that both SQL scanners are built from.

    internal/storage/query.go and internal/agent/agent.go hold identical copies
    of these loops; here each is written once and proved against the lexer.  Every
    method returns the index at which scanning resumes. */
module SqlScanners {
  import opened Text
  import opened SqlLexer

  // Characters that open or close a skipped region, and so may be read in code
  // mode without being a separator, a parenthesis or part of a word.
  predicate Delimiter(c: char) {
    c == '\'' || c == '"' || c == '[' || c == '-' || c == '/' || c == '*'
  }

  predicate QuietAt(s: string, k: nat)
    requires k < |s|
  {
    InCode(ModeAt(s, k)) ==> Delimiter(s[k])
  }

  /** Between i and j the lexer sees no code except delimiters. */
  ghost predicate Quiet(s: string, i: nat, j: nat)
    requires i <= j <= |s|
  {
    forall k | i <= k < j :: QuietAt(s, k)
  }

  lemma QuietHasNoSeparator(s: string, i: nat, j: nat)
    requires i <= j <= |s| && Quiet(s, i, j)
    ensures forall k | i <= k < j :: !SeparatorAt(s, k)
  {
    forall k | i <= k < j
      ensures !SeparatorAt(s, k)
    {
      assert QuietAt(s, k);
    }
  }

  /** The lexer is in code at i, and no two-character token straddles i. */
  ghost predicate CodeHead(s: string, i: nat)
    requires i <= |s|
  {
    && InCode(ModeAt(s, i))
    && (i < |s| && ModeAt(s, i) == Dash ==> s[i] != '-')
    && (i < |s| && ModeAt(s, i) == Slash ==> s[i] != '*')
  }

  /** The one place where the scanners leave the lexer: the last character of an
      unterminated block comment is looked at again as if it were code. */
  ghost predicate Rescan(s: string, i: nat)
    requires i <= |s|
  {
    i + 1 == |s| && InBlock(ModeAt(s, i)) && InBlock(ModeAt(s, i + 1))
  }

  /** The text ends inside a block comment, on a semicolon. */
  predicate DanglingSemicolon(s: string) {
    s != "" && s[|s| - 1] == ';' && InBlock(ModeAt(s, |s|))
  }

  /** What every scanner knows at the head of its loop. */
  ghost predicate Head(s: string, i: nat)
    requires i <= |s|
  {
    || i == |s|
    || CodeHead(s, i)
    || (ModeAt(s, i) == LineComment && s[i] == '\n')
    || Rescan(s, i)
  }

  predicate OpensComment(s: string, i: nat)
    requires i < |s|
  {
    i + 1 < |s| && (s[i] == '-' == s[i + 1] || (s[i] == '/' && s[i + 1] == '*'))
  }

  /** Reading one character that opens nothing leads from head to head. */
  lemma PlainStep(s: string, i: nat)
    requires i < |s| && Head(s, i)
    requires !OpensRegion(s, i)
    ensures Head(s, i + 1)
  {
    assert ModeAt(s, i + 1) == Next(ModeAt(s, i), s[i]);
  }

  method SkipQuoted(sql: string, from: nat, quote: char) returns (i: nat)
    requires 0 < from <= |sql| && Head(sql, from - 1)
    requires sql[from - 1] == quote && (quote == '\'' || quote == '"')
    ensures from <= i <= |sql| && Quiet(sql, from - 1, i) && Head(sql, i)
    ensures DanglingSemicolon(sql) && i == |sql| ==> Rescan(sql, from - 1)
    ensures CodeHead(sql, from - 1) && i < |sql| ==> ModeAt(sql, i) == Code && sql[i] != quote
  {
    i := from;
    assert ModeAt(sql, from) == Next(ModeAt(sql, from - 1), quote);
    while i < |sql|
      invariant from <= i <= |sql|
      invariant ModeAt(sql, i) == Quoted(quote) || (i == |sql| && Rescan(sql, from - 1))
      invariant Quiet(sql, from - 1, i)
    {
      assert ModeAt(sql, i + 1) == Next(ModeAt(sql, i), sql[i]);
      if sql[i] == quote {
        if i + 1 < |sql| && sql[i + 1] == quote {
          assert ModeAt(sql, i + 2) == Next(ModeAt(sql, i + 1), sql[i + 1]);
          i := i + 2;
          continue;
        }
        assert ModeAt(sql, i + 1) == Code;
        return i + 1;
      }
      i := i + 1;
    }
  }

  method SkipUntil(sql: string, from: nat, end: char) returns (i: nat)
    requires 0 < from <= |sql| && Head(sql, from - 1)
    requires sql[from - 1] == '[' && end == ']'
    ensures from <= i <= |sql| && Quiet(sql, from - 1, i) && Head(sql, i)
    ensures DanglingSemicolon(sql) && i == |sql| ==> Rescan(sql, from - 1)
  {
    i := from;
    assert ModeAt(sql, from) == Next(ModeAt(sql, from - 1), '[');
    while i < |sql| && sql[i] != end
      invariant from <= i <= |sql|
      invariant ModeAt(sql, i) == Bracket || (i == |sql| && Rescan(sql, from - 1))
      invariant Quiet(sql, from - 1, i)
    {
      i := i + 1;
    }
    if i < |sql| {
      assert ModeAt(sql, i + 1) == Next(ModeAt(sql, i), end);
      i := i + 1;
    }
  }

  /** Skips a line comment up to, not past, its newline. */
  method SkipLine(sql: string, from: nat) returns (i: nat)
    requires from + 1 < |sql| && sql[from] == '-' && sql[from + 1] == '-' && Head(sql, from)
    ensures from < i <= |sql| && Quiet(sql, from, i) && Head(sql, i)
    ensures DanglingSemicolon(sql) ==> i < |sql|
  {
    i := from;
    while i < |sql| && sql[i] != '\n'
      invariant from <= i <= |sql|
      invariant i == from + 1 ==> ModeAt(sql, i) == Dash
      invariant i >= from + 2 ==> ModeAt(sql, i) == LineComment
      invariant Quiet(sql, from, i)
    {
      i := i + 1;
    }
  }

  /** Skips a block comment, or stops on its last character when it never ends. */
  method SkipBlock(sql: string, from: nat) returns (i: nat)
    requires from + 1 < |sql| && sql[from] == '/' && sql[from + 1] == '*' && Head(sql, from)
    ensures from < i <= |sql| && Quiet(sql, from, i) && Head(sql, i)
    ensures DanglingSemicolon(sql) ==> i < |sql|
  {
    i := from + 2;
    assert ModeAt(sql, from + 1) == Next(ModeAt(sql, from), '/') == Slash;
    assert ModeAt(sql, from + 2) == Block;
    while i + 1 < |sql| && !(sql[i] == '*' && sql[i + 1] == '/')
      invariant from + 2 <= i <= |sql|
      invariant InBlock(ModeAt(sql, i)) && (i == |sql| ==> sql[i - 1] == '*')
      invariant i < |sql| && ModeAt(sql, i) == BlockStar ==> sql[i] != '/'
      invariant Quiet(sql, from, i)
    {
      assert ModeAt(sql, i + 1) == Next(ModeAt(sql, i), sql[i]);
      i := i + 1;
    }
    if i + 1 < |sql| {
      assert ModeAt(sql, i + 1) == BlockStar;
      assert ModeAt(sql, i + 2) == Code;
      i := i + 2;
    }
  }

  predicate OpensRegion(s: string, i: nat)
    requires i < |s|
  {
    s[i] == '\'' || s[i] == '"' || s[i] == '[' || OpensComment(s, i)
  }

  /** The first five cases of both scanners' switch. */
  method SkipRegion(sql: string, from: nat) returns (i: nat)
    requires from < |sql| && Head(sql, from) && OpensRegion(sql, from)
    ensures from < i <= |sql| && Quiet(sql, from, i) && Head(sql, i)
    ensures DanglingSemicolon(sql) && i == |sql| ==> Rescan(sql, from)
  {
    var c := sql[from];
    if c == '\'' || c == '"' {
      i := SkipQuoted(sql, from + 1, c);
    } else if c == '[' {
      i := SkipUntil(sql, from + 1, ']');
    } else if c == '-' {
      i := SkipLine(sql, from);
    } else {
      i := SkipBlock(sql, from);
    }
  }
}

/** hasMultipleStatements, the guard of RawSQL. */
module StorageScanner {
  import opened Text
  import opened SqlLexer
  import opened SqlScanners

  method HasMultipleStatements(sql: string) returns (multi: bool)
    ensures multi == MultipleStatements(sql)
  {
    var depth := 0;
    var i := 0;
    while i < |sql|
      invariant i <= |sql| && Head(sql, i)
      invariant forall k | 0 <= k < i && SeparatorAt(sql, k) :: Blank(sql[k + 1..])
      decreases |sql| - i
    {
      var c := sql[i];
      if OpensRegion(sql, i) {
        ghost var from := i;
        i := SkipRegion(sql, i);
        QuietHasNoSeparator(sql, from, i);
      } else if c == '(' {
        depth := depth + 1;
        PlainStep(sql, i);
        i := i + 1;
      } else if c == ')' {
        if depth > 0 {
          depth := depth - 1;
        }
        PlainStep(sql, i);
        i := i + 1;
      } else if c == ';' {
        TrimSpaceKeeps(sql[i + 1..]);
        if TrimSpace(sql[i + 1..]) != "" {
          assert CodeHead(sql, i) && SeparatorAt(sql, i);
          return true;
        }
        PlainStep(sql, i);
        i := i + 1;
      } else {
        PlainStep(sql, i);
        i := i + 1;
      }
    }
    return false;
  }
}
