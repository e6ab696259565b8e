/** Literals, bracketed names and comments, and the agent's guard: exchanging one for
    another changes neither what is one statement nor what is a read-only SELECT. */
module AgentLiterals {
  import opened Text
  import opened SqlLexer
  import opened SqlScanners
  import opened AgentScanner
  import opened SqlLiterals

  // ---- separators ----

  lemma SeparatorsOutside(p: string, l: string, tail: string)
    requires Hidden(p, l)
    ensures HasSeparator(p + l + tail) <==> HasSeparator(p) || HasSeparator(tail)
  {
    var text := p + l + tail;
    if HasSeparator(text) {
      var k := FirstSeparator(text, |text|);
      if k < |p| + |l| {
        SeparatorsUpTo(p, l, tail, k);
      } else {
        SeparatorsFrom(p, l, tail, k - |p| - |l|);
      }
    }
    if HasSeparator(p) {
      var k := FirstSeparator(p, |p|);
      SeparatorsUpTo(p, l, tail, k);
    }
    if HasSeparator(tail) {
      var k := FirstSeparator(tail, |tail|);
      SeparatorsFrom(p, l, tail, k);
    }
  }

  lemma DanglingAfter(p: string, l: string, tail: string)
    requires Hidden(p, l)
    ensures DanglingSemicolon(p + l + tail) <==> DanglingSemicolon(tail)
  {
    var text := p + l + tail;
    ModeAfter(p, l, tail, |tail|);
    if tail == "" {
      assert text[|text| - 1] == l[|l| - 1];
    } else {
      assert text[|text| - 1] == tail[|tail| - 1];
    }
  }

  // ---- keywords ----

  /** All that reading the first i characters leaves behind. */
  datatype Reading = Reading(mode: Mode, depth: nat, completed: seq<string>, word: string)

  function ReadingAt(s: string, i: nat): Reading
    requires i <= |s|
  {
    Reading(ModeAt(s, i), DepthAt(s, i), Completed(s, i), s[WordFrom(s, i)..i])
  }

  function Ended(r: Reading): seq<string> { if r.word == "" then r.completed else r.completed + [r.word] }

  function After(r: Reading, c: char): Reading {
    var mode, code := Next(r.mode, c), InCode(r.mode);
    var depth := if code then Nest(r.depth, c) else r.depth;
    if code && r.word != "" && IsIdentPart(c) then Reading(mode, depth, r.completed, r.word + [c])
    else Reading(mode, depth, Ended(r), if code && r.depth == 0 && IsIdentStart(c) then [c] else "")
  }

  /** What reading leaves behind depends on what it had before and the character. */
  lemma ReadingGoesOn(s: string, i: nat)
    requires i < |s|
    ensures ReadingAt(s, i + 1) == After(ReadingAt(s, i), s[i])
  {
    var f := WordFrom(s, i);
    assert ModeAt(s, i + 1) == Next(ModeAt(s, i), s[i]);
    if f == i {
      NoWordStep(s, i);
    } else {
      WordStep(s, i);
      assert s[f..i + 1] == s[f..i] + [s[i]];
      assert !(IsIdentStart(s[i]) && !IsIdentPart(s[i]));
    }
  }

  const START := Reading(Code, 0, [], "")

  function ReadOn(r: Reading, t: string): Reading {
    if t == "" then r else After(ReadOn(r, t[..|t| - 1]), t[|t| - 1])
  }

  function Read(s: string): Reading { ReadOn(START, s) }

  lemma {:induction false} ReadingIsFold(s: string, i: nat)
    requires i <= |s|
    ensures ReadingAt(s, i) == Read(s[..i])
  {
    if i > 0 {
      ReadingIsFold(s, i - 1);
      ReadingGoesOn(s, i - 1);
      PrefixGoesOn(s, i - 1);
    }
  }

  lemma PrefixGoesOn(s: string, i: nat)
    requires i < |s|
    ensures Read(s[..i + 1]) == After(Read(s[..i]), s[i])
  {
    ReadOneMore(START, s[..i], s[i]);
    assert s[..i + 1] == s[..i] + [s[i]];
  }

  lemma ReadOneMore(r: Reading, t: string, c: char)
    ensures ReadOn(r, t + [c]) == After(ReadOn(r, t), c)
  {
    assert (t + [c])[..|t|] == t;
  }

  /** Reading a text is reading its first part and then the second. */
  lemma {:induction false} ReadConcat(r: Reading, a: string, b: string)
    ensures ReadOn(r, a + b) == ReadOn(ReadOn(r, a), b)
  {
    if b == "" {
      assert a + b == a;
    } else {
      var front, last := b[..|b| - 1], b[|b| - 1];
      ReadConcat(r, a, front);
      assert a + b == (a + front) + [last];
      ReadOneMore(r, a + front, last);
    }
  }

  lemma EndedIsWords(s: string, i: nat)
    requires i <= |s|
    ensures Ended(ReadingAt(s, i)) == WordsAt(s, i)
  {
    assert |s[WordFrom(s, i)..i]| == i - WordFrom(s, i);
  }

  lemma KeywordsAreRead(s: string)
    ensures TopLevelKeywords(s) == KeywordsOf(Ended(Read(s)))
  {
    ReadingFindsTheWords(s);
    EndedIsWords(s, |s|);
    assert s[..|s|] == s;
    ReadingIsFold(s, |s|);
  }

  /** Where reading stands after a group or a span: in code, at the same depth, with the
      word before it ended. */
  function Past(r: Reading): Reading { Reading(Code, r.depth, Ended(r), "") }

  lemma ReadFirst(r: Reading, c: char, rest: string)
    ensures ReadOn(r, [c] + rest) == ReadOn(After(r, c), rest)
  {
    ReadConcat(r, [c], rest);
    assert [c][..0] == "" && ReadOn(r, [c]) == After(r, c);
  }

  lemma LeadsFirst(m: Mode, c: char, rest: string, n: Mode)
    requires Leads(m, [c] + rest, n)
    ensures (InCode(m) ==> Delimiter(c)) && Leads(Next(m, c), rest, n)
  {
    assert HiddenAt(m, [c] + rest, 0);
    assert ModeFrom(m, [c], 1) == Next(m, c);
    ModeConcat(m, [c], rest, 1 + |rest|);
    forall k | 0 <= k < |rest| ensures HiddenAt(Next(m, c), rest, k) {
      ModeConcat(m, [c], rest, 1 + k);
      assert HiddenAt(m, [c] + rest, 1 + k);
    }
  }

  /** What is out of sight changes nothing but ends the word before it. */
  lemma {:induction false} HiddenRead(r: Reading, l: string, n: Mode)
    requires Leads(r.mode, l, n) && l != ""
    requires InCode(r.mode) || r.word == ""
    ensures ReadOn(r, l) == Reading(n, r.depth, Ended(r), "")
    decreases |l|
  {
    var c, rest := l[0], l[1..];
    assert l == [c] + rest;
    LeadsFirst(r.mode, c, rest, n);
    ReadFirst(r, c, rest);
    assert After(r, c) == Reading(Next(r.mode, c), r.depth, Ended(r), "");
    if rest != "" {
      HiddenRead(After(r, c), rest, n);
    }
  }

  lemma ModeOfReading(p: string)
    ensures Read(p).mode == ModeAt(p, |p|)
  {
    assert p[..|p|] == p;
    ReadingIsFold(p, |p|);
  }

  lemma KeywordsPast(p: string, x: string, tail: string)
    requires ReadOn(Read(p), x) == Past(Read(p))
    ensures TopLevelKeywords(p + x + tail) == KeywordsOf(Ended(ReadOn(Past(Read(p)), tail)))
  {
    ReadConcat(START, p, x);
    ReadConcat(START, p + x, tail);
    KeywordsAreRead(p + x + tail);
  }

  lemma KeywordsAround(p: string, l: string, tail: string)
    requires Hidden(p, l)
    ensures TopLevelKeywords(p + l + tail) == KeywordsOf(Ended(ReadOn(Past(Read(p)), tail)))
  {
    ModeOfReading(p);
    HiddenRead(Read(p), l, Code);
    KeywordsPast(p, l, tail);
  }

  // ---- the first word ----

  /** Whether a text begins with a keyword is settled before its first span. */
  lemma FirstWordBefore(p: string, rest: string, keyword: string)
    requires rest != "" && Delimiter(rest[0]) && rest[0] !in keyword
    ensures StartsWithKeyword(p + rest, keyword) <==> StartsWithKeyword(p, keyword)
  {
    SkipSpacesInto(p, rest, 0);
    var i := SkipSpaces(p, 0);
    var u, v := Upper(TrimLeft(p)), Upper(TrimLeft(p + rest));
    assert TrimLeft(p + rest) == p[i..] + rest;
    assert forall k | 0 <= k < |u| :: u[k] == v[k];
    assert v[|u|] == rest[0];
    if keyword <= v {
      assert forall k | 0 <= k < |keyword| :: keyword[k] == v[k];
    }
    if keyword <= u {
      assert forall k | 0 <= k < |keyword| :: keyword[k] == u[k];
    }
  }

  // ---- the guard ----

  /** Exchanging one span for another, of whatever kind and contents, changes neither
      what the agent's guard takes for one statement nor what it accepts. */
  lemma AgentSpanInvariance(p: string, l: string, m: string, tail: string)
    requires Span(l) && Span(m) && InCode(ModeAt(p, |p|))
    ensures SingleForAgent(p + l + tail) <==> SingleForAgent(p + m + tail)
    ensures ReadOnlySelect(p + l + tail) <==> ReadOnlySelect(p + m + tail)
  {
    SpanLeads(ModeAt(p, |p|), l);
    SpanLeads(ModeAt(p, |p|), m);
    AgentVerdict(p, l, tail);
    AgentVerdict(p, m, tail);
    KeywordsAround(p, l, tail);
    KeywordsAround(p, m, tail);
  }

  lemma AgentVerdict(p: string, l: string, tail: string)
    requires Hidden(p, l)
    ensures var text := p + l + tail;
            && (SingleForAgent(text) <==> !HasSeparator(p) && SingleForAgent(tail))
            && (StartsWithKeyword(text, "SELECT") <==> StartsWithKeyword(p, "SELECT"))
            && (StartsWithKeyword(text, "WITH") <==> StartsWithKeyword(p, "WITH"))
  {
    SeparatorsOutside(p, l, tail);
    DanglingAfter(p, l, tail);
    assert p + l + tail == p + (l + tail) && (l + tail)[0] == l[0];
    FirstWordBefore(p, l + tail, "SELECT");
    FirstWordBefore(p, l + tail, "WITH");
  }
}
