/** Literals, bracketed names and comments, and storage's guard: what lies within them
    is invisible to it.  AgentLiterals shows the same of the agent's. */
module SqlLiterals {
  import opened Text
  import opened SqlLexer
  import opened SqlScanners
  import opened AgentScanner

  predicate IsQuote(q: char) { q == '\'' || q == '"' }

  function Double(s: string, q: char): string {
    if s == "" then "" else (if s[0] == q then [q, q] else [s[0]]) + Double(s[1..], q)
  }

  function Undouble(b: string, q: char): string {
    if b == "" then ""
    else if |b| >= 2 && b[0] == q == b[1] then [q] + Undouble(b[2..], q)
    else [b[0]] + Undouble(b[1..], q)
  }

  function Literal(s: string, q: char): string {
    [q] + Double(s, q) + [q]
  }

  lemma {:induction false} UndoubleDouble(s: string, q: char)
    ensures Undouble(Double(s, q), q) == s
  {
    if s != "" {
      var h := if s[0] == q then [q, q] else [s[0]];
      var d := Double(s[1..], q);
      assert (h + d)[|h|..] == d;
      UndoubleDouble(s[1..], q);
    }
  }

  /** A literal with any contents, or a bracketed name or a comment with contents that
      do not end it. */
  ghost predicate Span(l: string) {
    || (exists s, q :: IsQuote(q) && l == Literal(s, q))
    || (exists s :: ']' !in s && l == "[" + s + "]")
    || (exists s :: '\n' !in s && l == "--" + s + "\n")
    || (exists s :: !Occurs(s, "*/") && l == "/*" + s + "*/")
  }

  /** Read from mode m, the i-th character of a piece of text lies in code only if it
      is a delimiter. */
  predicate HiddenAt(m: Mode, text: string, i: nat)
    requires i < |text|
  {
    InCode(ModeFrom(m, text, i)) ==> Delimiter(text[i])
  }

  /** A piece of text that leads from one mode to another and shows nothing but
      delimiters in code. */
  ghost predicate Leads(m: Mode, text: string, n: Mode) {
    ModeFrom(m, text, |text|) == n && forall i | 0 <= i < |text| :: HiddenAt(m, text, i)
  }

  lemma LeadsOn(m: Mode, a: string, n: Mode, b: string, o: Mode)
    requires Leads(m, a, n) && Leads(n, b, o)
    ensures Leads(m, a + b, o)
  {
    ModeConcat(m, a, b, |a + b|);
    forall i | 0 <= i < |a + b|
      ensures HiddenAt(m, a + b, i)
    {
      ModeConcat(m, a, b, i);
      assert if i < |a| then HiddenAt(m, a, i) else HiddenAt(n, b, i - |a|);
    }
  }

  lemma OneLeads(m: Mode, c: char)
    requires InCode(m) ==> Delimiter(c)
    ensures Leads(m, [c], Next(m, c))
  {
    assert ModeFrom(m, [c], 0) == m && ModeFrom(m, [c], 1) == Next(m, c);
  }

  lemma TwoLead(m: Mode, c: char, d: char)
    requires (InCode(m) ==> Delimiter(c)) && (InCode(Next(m, c)) ==> Delimiter(d))
    ensures Leads(m, [c, d], Next(Next(m, c), d))
  {
    OneLeads(m, c);
    OneLeads(Next(m, c), d);
    LeadsOn(m, [c], Next(m, c), [d], Next(Next(m, c), d));
    assert [c] + [d] == [c, d];
  }

  /** Read from inside the literal, a doubled body stays inside it; the only
      code positions are between the two quotes of a doubled pair. */
  lemma {:induction false} BodyStaysQuoted(s: string, q: char)
    requires IsQuote(q)
    ensures Leads(Quoted(q), Double(s, q), Quoted(q))
  {
    if s != "" {
      if s[0] == q { TwoLead(Quoted(q), q, q); } else { OneLeads(Quoted(q), s[0]); }
      BodyStaysQuoted(s[1..], q);
      LeadsOn(Quoted(q), if s[0] == q then [q, q] else [s[0]], Quoted(q), Double(s[1..], q), Quoted(q));
    }
  }

  /** Contents that a mode does not end on stay in it. */
  lemma {:induction false} ContentsStay(m: Mode, s: string)
    requires !InCode(m) && forall c | c in s :: Next(m, c) == m
    ensures Leads(m, s, m)
  {
    if s != "" {
      OneLeads(m, s[0]);
      ContentsStay(m, s[1..]);
      LeadsOn(m, [s[0]], m, s[1..], m);
      assert [s[0]] + s[1..] == s;
    }
  }

  lemma EndIn(s: string)
    requires s != ""
    ensures Occurs(s[1..], "*/") || (s[0] == '*' && "/" <= s[1..]) ==> Occurs(s, "*/")
  {
    if s[0] == '*' && "/" <= s[1..] {
      assert s[0..2] == "*/" && OccursAt(s, "*/", 0);
    }
    if Occurs(s[1..], "*/") {
      var k: nat :| k <= |s[1..]| && OccursAt(s[1..], "*/", k);
      assert s[1..][k..k + 2] == s[k + 1..k + 3] && OccursAt(s, "*/", k + 1);
    }
  }

  /** A comment's contents up to its end, read inside the comment. */
  lemma {:induction false} CommentStays(m: Mode, s: string)
    requires InBlock(m) && !Occurs(s, "*/") && !(m == BlockStar && "/" <= s)
    ensures Leads(m, s + "*", BlockStar)
    decreases |s|
  {
    if s == "" {
      OneLeads(m, '*');
      assert s + "*" == ['*'];
    } else {
      EndIn(s);
      var n := Next(m, s[0]);
      OneLeads(m, s[0]);
      CommentStays(n, s[1..]);
      LeadsOn(m, [s[0]], n, s[1..] + "*", BlockStar);
      assert [s[0]] + (s[1..] + "*") == s + "*";
    }
  }

  lemma Between(m: Mode, open: string, inside: Mode, s: string, n: Mode, close: string)
    requires Leads(m, open, inside) && Leads(inside, s, n) && Leads(n, close, Code)
    ensures Leads(m, open + s + close, Code)
  {
    LeadsOn(m, open, inside, s, n);
    LeadsOn(m, open + s, n, close, Code);
  }

  lemma LiteralLeads(m: Mode, s: string, q: char)
    requires IsQuote(q) && InCode(m)
    ensures Leads(m, Literal(s, q), Code)
  {
    OneLeads(m, q);
    BodyStaysQuoted(s, q);
    OneLeads(Quoted(q), q);
    Between(m, [q], Quoted(q), Double(s, q), Quoted(q), [q]);
  }

  lemma NameLeads(m: Mode, s: string)
    requires ']' !in s && InCode(m)
    ensures Leads(m, "[" + s + "]", Code)
  {
    OneLeads(m, '[');
    ContentsStay(Bracket, s);
    OneLeads(Bracket, ']');
    Between(m, "[", Bracket, s, Bracket, "]");
  }

  lemma LineLeads(m: Mode, s: string)
    requires '\n' !in s && InCode(m)
    ensures Leads(m, "--" + s + "\n", Code)
  {
    TwoLead(m, '-', '-');
    ContentsStay(LineComment, s);
    OneLeads(LineComment, '\n');
    Between(m, "--", LineComment, s, LineComment, "\n");
  }

  lemma CommentLeads(m: Mode, s: string)
    requires !Occurs(s, "*/") && InCode(m)
    ensures Leads(m, "/*" + s + "*/", Code)
  {
    TwoLead(m, '/', '*');
    CommentStays(Block, s);
    OneLeads(BlockStar, '/');
    Between(m, "/*", Block, s + "*", BlockStar, "/");
    assert "/*" + (s + "*") + "/" == "/*" + s + "*/";
  }

  /** A span met in code is out of sight. */
  lemma SpanLeads(m: Mode, l: string)
    requires Span(l) && InCode(m)
    ensures Leads(m, l, Code) && l != "" && Delimiter(l[0]) && l[|l| - 1] != ';'
  {
    if s, q :| IsQuote(q) && l == Literal(s, q) {
      LiteralLeads(m, s, q);
    } else if s :| ']' !in s && l == "[" + s + "]" {
      NameLeads(m, s);
    } else if s :| '\n' !in s && l == "--" + s + "\n" {
      LineLeads(m, s);
    } else {
      var s :| !Occurs(s, "*/") && l == "/*" + s + "*/";
      CommentLeads(m, s);
    }
  }

  /** l, met where p ends, is out of sight. */
  ghost predicate Hidden(p: string, l: string) {
    Leads(ModeAt(p, |p|), l, Code) && l != "" && Delimiter(l[0]) && l[|l| - 1] != ';'
  }

  // ---- the lexer on a text with a hidden piece in it ----

  lemma ModeUpTo(p: string, l: string, tail: string, k: nat)
    requires k <= |p| + |l|
    ensures ModeAt(p + l + tail, k) == if k <= |p| then ModeAt(p, k) else ModeFrom(ModeAt(p, |p|), l, k - |p|)
  {
    ModeConcat(Code, p + l, tail, k);
    ModeConcat(Code, p, l, k);
  }

  lemma ModeAfter(p: string, l: string, tail: string, k: nat)
    requires Hidden(p, l) && k <= |tail|
    ensures ModeAt(p + l + tail, |p| + |l| + k) == ModeAt(tail, k)
  {
    ModeConcat(Code, p + l, tail, |p| + |l| + k);
    ModeConcat(Code, p, l, |p| + |l|);
  }

  /** Where the separators of such a text lie. */
  lemma SeparatorsUpTo(p: string, l: string, tail: string, k: nat)
    requires Hidden(p, l) && k < |p| + |l|
    ensures SeparatorAt(p + l + tail, k) <==> k < |p| && SeparatorAt(p, k)
  {
    ModeUpTo(p, l, tail, k);
    assert (p + l + tail)[k] == if k < |p| then p[k] else l[k - |p|];
    if k >= |p| { assert HiddenAt(ModeAt(p, |p|), l, k - |p|); }
  }

  lemma SeparatorsFrom(p: string, l: string, tail: string, k: nat)
    requires Hidden(p, l) && k < |tail|
    ensures var at := |p| + |l| + k;
            && (SeparatorAt(p + l + tail, at) <==> SeparatorAt(tail, k))
            && (p + l + tail)[at + 1..] == tail[k + 1..]
  {
    ModeAfter(p, l, tail, k);
    assert (p + l + tail)[|p| + |l| + k] == tail[k];
  }

  lemma SeparatorBefore(p: string, l: string, tail: string)
    requires Hidden(p, l) && HasSeparator(p)
    ensures MultipleStatements(p + l + tail)
  {
    var k := FirstSeparator(p, |p|);
    var text := p + l + tail;
    SeparatorsUpTo(p, l, tail, k);
    assert SeparatorAt(text, k);
    assert text[k + 1..][|p| - k - 1] == l[0];
  }

  lemma SeparatorAfter(p: string, l: string, tail: string)
    requires Hidden(p, l) && MultipleStatements(tail)
    ensures MultipleStatements(p + l + tail)
  {
    var j :| 0 <= j < |tail| && SeparatorAt(tail, j) && !Blank(tail[j + 1..]);
    SeparatorsFrom(p, l, tail, j);
  }

  /** A text with a span in it is multi-statement by what precedes the span or by what
      follows it, never by the span's contents. */
  lemma SpanIsInvisible(p: string, l: string, tail: string)
    requires Span(l) && InCode(ModeAt(p, |p|))
    ensures MultipleStatements(p + l + tail) <==> HasSeparator(p) || MultipleStatements(tail)
  {
    SpanLeads(ModeAt(p, |p|), l);
    if HasSeparator(p) {
      SeparatorBefore(p, l, tail);
    }
    if MultipleStatements(tail) {
      SeparatorAfter(p, l, tail);
    }
    var text := p + l + tail;
    if MultipleStatements(text) {
      var k :| 0 <= k < |text| && SeparatorAt(text, k) && !Blank(text[k + 1..]);
      if k < |p| + |l| {
        SeparatorsUpTo(p, l, tail, k);
      } else {
        SeparatorsFrom(p, l, tail, k - |p| - |l|);
      }
    }
  }

  /** Exchanging one span for another, of whatever kind and contents, changes nothing. */
  lemma SpanInvariance(p: string, l: string, m: string, tail: string)
    requires Span(l) && Span(m) && InCode(ModeAt(p, |p|))
    ensures MultipleStatements(p + l + tail) <==> MultipleStatements(p + m + tail)
  {
    SpanIsInvisible(p, l, tail);
    SpanIsInvisible(p, m, tail);
  }

  lemma {:induction false} PlainIsCode(s: string, i: nat)
    requires i <= |s| && forall k | 0 <= k < i :: !Delimiter(s[k])
    ensures ModeAt(s, i) == Code
  {
    if i > 0 {
      PlainIsCode(s, i - 1);
    }
  }

  /** Outside spans nothing is hidden: in a text without delimiters every semicolon
      with text after it counts. */
  lemma PlainTextHidesNothing(s: string)
    requires forall k | 0 <= k < |s| :: !Delimiter(s[k])
    ensures MultipleStatements(s) <==> exists k | 0 <= k < |s| :: s[k] == ';' && !Blank(s[k + 1..])
  {
    forall k | 0 <= k < |s| ensures SeparatorAt(s, k) <==> s[k] == ';' {
      PlainIsCode(s, k);
    }
  }

  /** The comment on hasMultipleStatements promises that parentheses hide a
      separator. */
  predicate DocumentedMultiple(s: string) {
    exists k | 0 <= k < |s| :: SeparatorAt(s, k) && DepthAt(s, k) == 0 && !Blank(s[k + 1..])
  }

  /** The code does not keep that promise: the depth it counts is never read. */
  lemma ParenthesesHideNothing()
    ensures MultipleStatements("(;)") && !DocumentedMultiple("(;)")
  {
    var s := "(;)";
    assert ModeAt(s, 1) == Code && DepthAt(s, 1) == 1;
    assert SeparatorAt(s, 1) && s[2..][0] == ')';
    assert ModeAt(s, 2) == Code;
  }

  lemma BlankTail(s: string, k: nat)
    requires k < |s|
    ensures Blank(s[k + 1..]) <==> DropSpaces(s, |s|) <= k + 1
  {
    var n := DropSpaces(s, |s|);
    if n > k + 1 {
      assert s[k + 1..][n - 1 - (k + 1)] == s[n - 1];
    }
  }

  /** Code and promise part exactly on texts that have a separator before their
      last visible character, but only inside parentheses. */
  lemma DocumentedExactly(s: string)
    ensures var last := DropSpaces(s, |s|) - 1;
            (MultipleStatements(s) <==> DocumentedMultiple(s)) <==>
            !(&& (exists k | 0 <= k < last :: SeparatorAt(s, k))
              && (forall k | 0 <= k < last && SeparatorAt(s, k) :: DepthAt(s, k) > 0))
  {
    forall k: nat | k < |s| && SeparatorAt(s, k)
      ensures Blank(s[k + 1..]) <==> DropSpaces(s, |s|) <= k + 1
    {
      BlankTail(s, k);
    }
  }
}
