/** Parentheses and the agent's guard: to its keyword scan a parenthesised group, however
    deep and whatever spans it holds, reads like a space, and so does a span. */
module AgentGroups {
  import opened Text
  import opened SqlLexer
  import opened SqlScanners
  import opened AgentScanner
  import opened SqlLiterals
  import opened AgentLiterals

  /** What stands between parentheses: characters, spans and further groups. */
  datatype Inner =
    | End
    | Plain(c: char, rest: Inner)
    | Piece(span: string, rest: Inner)
    | Group(inner: Inner, rest: Inner)

  function Spelled(i: Inner): string {
    match i
    case End => ""
    case Plain(c, rest) => [c] + Spelled(rest)
    case Piece(l, rest) => l + Spelled(rest)
    case Group(inner, rest) => "(" + Spelled(inner) + ")" + Spelled(rest)
  }

  ghost predicate WellFormed(i: Inner) {
    match i
    case End => true
    case Plain(c, rest) => !Delimiter(c) && c != '(' && c != ')' && WellFormed(rest)
    case Piece(l, rest) => Span(l) && WellFormed(rest)
    case Group(inner, rest) => WellFormed(inner) && WellFormed(rest)
  }

  lemma OneRead(r: Reading, c: char)
    requires InCode(r.mode) && !Delimiter(c)
    ensures c == '(' ==> ReadOn(r, [c]) == Reading(Code, r.depth + 1, Ended(r), "")
    ensures c == ')' && r.depth > 0 ==> ReadOn(r, [c]) == Reading(Code, r.depth - 1, Ended(r), "")
    ensures c == ' ' ==> ReadOn(r, [c]) == Past(r)
    ensures c != '(' && c != ')' && r.depth > 0 && r.word == "" ==> ReadOn(r, [c]) == Past(r)
  {
    assert [c][..0] == "" && ReadOn(r, [c]) == After(r, c);
  }

  lemma {:induction false} InnerRead(r: Reading, i: Inner)
    requires WellFormed(i) && r.mode == Code && r.depth > 0 && r.word == ""
    ensures ReadOn(r, Spelled(i)) == r
    decreases i, 0
  {
    match i {
      case End =>
      case Plain(c, rest) =>
        OneRead(r, c);
        ReadConcat(r, [c], Spelled(rest));
        InnerRead(r, rest);
      case Piece(l, rest) =>
        SpanLeads(Code, l);
        HiddenRead(r, l, Code);
        ReadConcat(r, l, Spelled(rest));
        InnerRead(r, rest);
      case Group(inner, rest) =>
        GroupRead(r, inner);
        ReadConcat(r, "(" + Spelled(inner) + ")", Spelled(rest));
        InnerRead(r, rest);
    }
  }

  lemma GroupRead(r: Reading, inner: Inner)
    requires WellFormed(inner) && InCode(r.mode)
    ensures ReadOn(r, "(" + Spelled(inner) + ")") == Past(r)
    decreases inner, 1
  {
    var open := Reading(Code, r.depth + 1, Ended(r), "");
    OneRead(r, '(');
    ReadConcat(r, "(", Spelled(inner));
    InnerRead(open, inner);
    OneRead(open, ')');
    ReadConcat(r, "(" + Spelled(inner), ")");
  }

  /** The keywords of a text do not change when a group or a span in it is exchanged
      for a space; so whatever stands within counts for nothing, and what stands
      after it counts as if it were not there. */
  lemma GroupsAreBlank(p: string, inner: Inner, l: string, tail: string)
    requires WellFormed(inner) && Span(l) && InCode(ModeAt(p, |p|))
    ensures TopLevelKeywords(p + ("(" + Spelled(inner) + ")") + tail) == TopLevelKeywords(p + " " + tail)
    ensures TopLevelKeywords(p + l + tail) == TopLevelKeywords(p + " " + tail)
  {
    var r := Read(p);
    ModeOfReading(p);
    GroupRead(r, inner);
    SpanLeads(r.mode, l);
    OneRead(r, ' ');
    KeywordsPast(p, "(" + Spelled(inner) + ")", tail);
    KeywordsAround(p, l, tail);
    KeywordsPast(p, " ", tail);
  }

  // ---- words ----

  predicate WordCharacter(c: char) { c == '_' || 'a' <= c <= 'z' || 'A' <= c <= 'Z' || '0' <= c <= '9' }

  lemma LetterRead(r: Reading, c: char)
    requires r.mode == Code && WordCharacter(c)
    ensures r.word != "" ==> ReadOn(r, [c]) == r.(word := r.word + [c])
    ensures r.word == "" && r.depth == 0 && !('0' <= c <= '9') ==> ReadOn(r, [c]) == r.(word := [c])
  {
    assert [c][..0] == "" && ReadOn(r, [c]) == After(r, c);
  }

  lemma {:induction false} LettersRead(r: Reading, w: string)
    requires r.mode == Code && r.word != ""
    requires forall i | 0 <= i < |w| :: WordCharacter(w[i])
    ensures ReadOn(r, w) == r.(word := r.word + w)
  {
    if w != "" {
      var front, c := w[..|w| - 1], w[|w| - 1];
      assert w == front + [c];
      LettersRead(r, front);
      ReadConcat(r, front, [c]);
      LetterRead(r.(word := r.word + front), c);
    }
  }

  /** A run of letters, digits and underscores between spaces, in code outside every
      parenthesis and not led by a digit, is one word. */
  lemma ARunIsAWord(p: string, w: string)
    requires InCode(ModeAt(p, |p|)) && DepthAt(p, |p|) == 0
    requires w != "" && !('0' <= w[0] <= '9')
    requires forall i | 0 <= i < |w| :: WordCharacter(w[i])
    ensures var s := p + " " + w + " ";
            WordsBefore(s, |s|) == WordsBefore(p, |p|) + [w]
  {
    var r := Read(p);
    ModeOfReading(p);
    WordsAreRead(p);
    OneRead(r, ' ');
    ReadConcat(START, p, " ");
    var open := Past(r);
    LetterRead(open, w[0]);
    LettersRead(open.(word := [w[0]]), w[1..]);
    ReadConcat(open, [w[0]], w[1..]);
    assert [w[0]] + w[1..] == w;
    ReadConcat(START, p + " ", w);
    OneRead(open.(word := w), ' ');
    ReadConcat(START, p + " " + w, " ");
    WordsAreRead(p + " " + w + " ");
  }

  lemma WordsAreRead(s: string)
    ensures WordsBefore(s, |s|) == Ended(Read(s)) && Read(s).depth == DepthAt(s, |s|)
  {
    ReadingFindsTheWords(s);
    EndedIsWords(s, |s|);
    assert s[..|s|] == s;
    ReadingIsFold(s, |s|);
  }
}
