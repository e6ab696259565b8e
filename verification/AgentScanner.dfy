/** scanTopLevel and validateReadOnlySQL: what the agent accepts as one read-only statement. */
module AgentScanner {
  import opened Text
  import opened SqlLexer
  import opened SqlScanners

  predicate IsIdentStart(c: char) { c == '_' || 'A' <= c <= 'Z' || 'a' <= c <= 'z' }

  predicate IsIdentPart(c: char) { IsIdentStart(c) || '0' <= c <= '9' }

  /** unicode.ToUpper, as far as its result can be ASCII: besides the ASCII
      letters only U+0131 and U+017F have ASCII capitals. */
  function UpperChar(c: char): char {
    if 'a' <= c <= 'z' then c - 'a' + 'A'
    else if c == '\U{0131}' then 'I'
    else if c == '\U{017F}' then 'S'
    else c
  }

  function Upper(s: string): (r: string)
    ensures |r| == |s| && forall i | 0 <= i < |s| :: r[i] == UpperChar(s[i])
  {
    seq(|s|, i requires 0 <= i < |s| => UpperChar(s[i]))
  }

  predicate StatementKeyword(w: string) {
    w == "SELECT" || w == "INSERT" || w == "UPDATE" || w == "DELETE" || w == "REPLACE"
  }

  function Keyword(w: string): seq<string> {
    if StatementKeyword(Upper(w)) then [Upper(w)] else []
  }

  function KeywordsOf(words: seq<string>): seq<string> {
    if words == [] then [] else KeywordsOf(words[..|words| - 1]) + Keyword(words[|words| - 1])
  }

  // ---- the words outside parentheses ----

  predicate Identifier(s: string, i: nat, j: nat)
    requires i <= j <= |s|
  {
    forall k | i <= k < j :: IsIdentPart(s[k])
  }

  /** Where the identifier characters from i on end. */
  function WordEnd(s: string, i: nat): (e: nat)
    requires i <= |s|
    ensures i <= e <= |s| && Identifier(s, i, e) && (e < |s| ==> !IsIdentPart(s[e]))
    decreases |s| - i
  {
    if i < |s| && IsIdentPart(s[i]) then WordEnd(s, i + 1) else i
  }

  /** From a letter or underscore at j identifier characters go on up to i. */
  predicate Reaches(s: string, j: nat, i: nat)
    requires j < i <= |s|
  {
    IsIdentStart(s[j]) && Identifier(s, j, i)
  }

  /** A word starts at i: at a letter or underscore in code at depth 0, with no
      letter or underscore among the identifier characters just before it. */
  predicate StartsWord(s: string, i: nat)
    requires i < |s|
  {
    && InCode(ModeAt(s, i)) && DepthAt(s, i) == 0 && IsIdentStart(s[i])
    && forall j: nat | j < i :: !Reaches(s, j, i)
  }

  /** The word that starts at i, if one does. */
  function Starting(s: string, i: nat): seq<string>
    requires i < |s|
  {
    if StartsWord(s, i) then [s[i..WordEnd(s, i)]] else []
  }

  /** The words that start before i, each with all its identifier characters. */
  function WordsBefore(s: string, i: nat): seq<string>
    requires i <= |s|
  {
    if i == 0 then [] else WordsBefore(s, i - 1) + Starting(s, i - 1)
  }

  /** The statement keywords among the words in code outside every parenthesis. */
  function TopLevelKeywords(s: string): seq<string> { KeywordsOf(WordsBefore(s, |s|)) }

  // ---- the same words, read one character at a time ----

  /** Where the word the lexer is in the middle of after i characters began; i
      itself, if it is in no word. */
  function WordFrom(s: string, i: nat): (f: nat)
    requires i <= |s|
    ensures f <= i
  {
    if i == 0 || !InCode(ModeAt(s, i - 1)) then i else
      var f, c := WordFrom(s, i - 1), s[i - 1];
      if f < i - 1 && IsIdentPart(c) then f
      else if DepthAt(s, i - 1) == 0 && IsIdentStart(c) then i - 1
      else i
  }

  /** The words that have ended before the i-th character. */
  function Completed(s: string, i: nat): seq<string>
    requires i <= |s|
  {
    if i == 0 then [] else
      var f := WordFrom(s, i - 1);
      if f == i - 1 || (InCode(ModeAt(s, i - 1)) && IsIdentPart(s[i - 1])) then Completed(s, i - 1)
      else Completed(s, i - 1) + [s[f..i - 1]]
  }

  /** With the one that may not have ended yet. */
  function WordsAt(s: string, i: nat): seq<string>
    requires i <= |s|
  {
    if WordFrom(s, i) == i then Completed(s, i) else Completed(s, i) + [s[WordFrom(s, i)..i]]
  }

  predicate InRun(s: string, k: nat)
    requires k < |s|
  {
    InCode(ModeAt(s, k)) && DepthAt(s, k) == 0 && IsIdentPart(s[k])
  }

  /** From start to i there are identifier characters in code at depth 0, the
      first of them a letter or underscore. */
  ghost predicate TopLevelRun(s: string, start: nat, i: nat)
    requires start <= i <= |s|
  {
    && (start < i ==> IsIdentStart(s[start]))
    && (forall k | start <= k < i :: InRun(s, k))
  }

  lemma RunGrows(s: string, start: nat, i: nat)
    requires start < i < |s| && TopLevelRun(s, start, i) && IsIdentPart(s[i]) && InCode(ModeAt(s, i))
    ensures TopLevelRun(s, start, i + 1)
  {
    assert InRun(s, i - 1);
    IdentifierInCode(s, i - 1);
    assert InRun(s, i);
  }

  lemma RunBegins(s: string, i: nat)
    requires i < |s| && IsIdentStart(s[i]) && InCode(ModeAt(s, i)) && DepthAt(s, i) == 0
    ensures TopLevelRun(s, i, i + 1)
  {}

  lemma {:induction false} WordIsTopLevelRun(s: string, i: nat)
    requires i <= |s|
    ensures TopLevelRun(s, WordFrom(s, i), i)
  {
    if i > 0 {
      WordIsTopLevelRun(s, i - 1);
      if WordFrom(s, i - 1) == i - 1 {
        NoWordStep(s, i - 1);
        if WordFrom(s, i) < i { RunBegins(s, i - 1); }
      } else {
        WordStep(s, i - 1);
        if WordFrom(s, i) < i { RunGrows(s, WordFrom(s, i - 1), i - 1); }
      }
    }
  }

  lemma {:induction false} QuotesAreQuotes(s: string, i: nat)
    requires i <= |s|
    ensures ModeAt(s, i).Quoted? ==> ModeAt(s, i).quote == '\'' || ModeAt(s, i).quote == '"'
  {
    if i > 0 {
      QuotesAreQuotes(s, i - 1);
    }
  }

  /** Identifier characters that end in code lie in code and change no depth. */
  lemma IdentifierInCode(s: string, i: nat)
    requires i < |s| && IsIdentPart(s[i]) && InCode(ModeAt(s, i + 1))
    ensures InCode(ModeAt(s, i)) && DepthAt(s, i + 1) == DepthAt(s, i)
  {
    QuotesAreQuotes(s, i);
    assert ModeAt(s, i + 1) == Next(ModeAt(s, i), s[i]);
  }

  /** Where a word has started and not ended, the reading is inside a word. */
  lemma {:induction false} InsideStartedWord(s: string, j: nat, i: nat)
    requires j < i <= |s| && Reaches(s, j, i)
    requires InCode(ModeAt(s, i)) && DepthAt(s, i) == 0
    ensures WordFrom(s, i) < i
  {
    IdentifierInCode(s, i - 1);
    if j < i - 1 {
      InsideStartedWord(s, j, i - 1);
    }
  }

  /** One character read inside a word or after it. */
  lemma WordStep(s: string, i: nat)
    requires i < |s| && WordFrom(s, i) < i
    ensures InCode(ModeAt(s, i))
    ensures IsIdentPart(s[i]) ==> WordFrom(s, i + 1) == WordFrom(s, i) && Completed(s, i + 1) == Completed(s, i)
    ensures !IsIdentPart(s[i]) ==>
              WordFrom(s, i + 1) == i + 1 && Completed(s, i + 1) == Completed(s, i) + [s[WordFrom(s, i)..i]]
  {
    assert ModeAt(s, i) == Next(ModeAt(s, i - 1), s[i - 1]);
  }

  /** One character read outside words. */
  lemma NoWordStep(s: string, i: nat)
    requires i < |s| && WordFrom(s, i) == i
    ensures Completed(s, i + 1) == Completed(s, i)
    ensures WordFrom(s, i + 1) == if InCode(ModeAt(s, i)) && DepthAt(s, i) == 0 && IsIdentStart(s[i]) then i else i + 1
  {}

  /** The rest of the word the reading is in the middle of. */
  function Pending(s: string, i: nat): seq<string>
    requires i <= |s|
  {
    if WordFrom(s, i) == i then [] else [s[WordFrom(s, i)..WordEnd(s, i)]]
  }

  lemma NoStartInWord(s: string, i: nat)
    requires i < |s| && WordFrom(s, i) < i
    ensures !StartsWord(s, i)
  {
    WordIsTopLevelRun(s, i);
    RunReaches(s, WordFrom(s, i), i);
  }

  lemma RunReaches(s: string, start: nat, i: nat)
    requires start < i <= |s| && TopLevelRun(s, start, i)
    ensures Reaches(s, start, i)
  {
    forall k | start <= k < i
      ensures IsIdentPart(s[k])
    {
      assert InRun(s, k);
    }
  }

  lemma PendingInWord(s: string, i: nat)
    requires i < |s| && WordFrom(s, i) < i
    ensures Completed(s, i + 1) + Pending(s, i + 1) == Completed(s, i) + Pending(s, i)
  {
    WordStep(s, i);
    if IsIdentPart(s[i]) {
      assert WordEnd(s, i + 1) == WordEnd(s, i);
    } else {
      assert WordEnd(s, i) == i;
    }
  }

  lemma StartsOutsideWords(s: string, i: nat)
    requires i < |s| && WordFrom(s, i) == i
    ensures StartsWord(s, i) <==> InCode(ModeAt(s, i)) && DepthAt(s, i) == 0 && IsIdentStart(s[i])
  {
    if InCode(ModeAt(s, i)) && DepthAt(s, i) == 0 {
      forall j: nat | j < i
        ensures !Reaches(s, j, i)
      {
        if Reaches(s, j, i) { InsideStartedWord(s, j, i); }
      }
    }
  }

  lemma PendingOutsideWords(s: string, i: nat)
    requires i < |s| && WordFrom(s, i) == i
    ensures Completed(s, i + 1) + Pending(s, i + 1) == Completed(s, i) + Starting(s, i)
  {
    NoWordStep(s, i);
    StartsOutsideWords(s, i);
  }

  lemma {:induction false} ReadingKeepsUp(s: string, i: nat)
    requires i <= |s|
    ensures Completed(s, i) + Pending(s, i) == WordsBefore(s, i)
  {
    if i > 0 {
      ReadingKeepsUp(s, i - 1);
      ReadingStep(s, i - 1);
      assert WordsBefore(s, i) == WordsBefore(s, i - 1) + Starting(s, i - 1);
    }
  }

  lemma ReadingStep(s: string, i: nat)
    requires i < |s|
    ensures Completed(s, i + 1) + Pending(s, i + 1) == Completed(s, i) + Pending(s, i) + Starting(s, i)
  {
    if WordFrom(s, i) == i {
      PendingOutsideWords(s, i);
      assert Completed(s, i) + Pending(s, i) == Completed(s, i);
    } else {
      NoStartInWord(s, i);
      PendingInWord(s, i);
    }
  }

  /** Reading one character at a time misses no word and invents none: what has
      been read at the end is every maximal word, in order. */
  lemma ReadingFindsTheWords(s: string)
    ensures WordsAt(s, |s|) == WordsBefore(s, |s|)
  {
    ReadingKeepsUp(s, |s|);
    WordIsTopLevelRun(s, |s|);
  }

  // ---- what the scanner may skip ----

  ghost predicate NoSeparatorBefore(s: string, i: nat)
    requires i <= |s|
  {
    forall k | 0 <= k < i :: !SeparatorAt(s, k)
  }

  ghost predicate HasSeparator(s: string) {
    !NoSeparatorBefore(s, |s|)
  }

  /** Nothing after j belongs to a word begun before it. */
  ghost predicate WordClosed(s: string, j: nat)
    requires j <= |s|
  {
    WordFrom(s, j) < j && j < |s| ==> !IsIdentPart(s[j])
  }

  /** Nothing between i and j matters to words, depth or separators, and no word
      is open at j. */
  ghost predicate Uneventful(s: string, i: nat, j: nat)
    requires i <= j <= |s|
  {
    && DepthAt(s, j) == DepthAt(s, i)
    && WordsAt(s, j) == WordsAt(s, i)
    && (i < j ==> WordFrom(s, j) == j)
    && (NoSeparatorBefore(s, i) ==> NoSeparatorBefore(s, j))
  }

  lemma WordsUnchanged(s: string, i: nat)
    requires i < |s| && WordClosed(s, i)
    requires InCode(ModeAt(s, i)) && IsIdentStart(s[i]) ==> DepthAt(s, i) != 0
    ensures WordsAt(s, i + 1) == WordsAt(s, i) && WordFrom(s, i + 1) == i + 1
  {
    if WordFrom(s, i) == i { NoWordStep(s, i); } else { WordStep(s, i); }
  }

  lemma NoSeparatorStep(s: string, i: nat)
    requires i < |s| && (InCode(ModeAt(s, i)) ==> s[i] != ';')
    ensures NoSeparatorBefore(s, i) ==> NoSeparatorBefore(s, i + 1)
  {
    assert !SeparatorAt(s, i);
  }

  lemma UneventfulStep(s: string, i: nat)
    requires i < |s| && WordClosed(s, i)
    requires InCode(ModeAt(s, i)) ==> s[i] != '(' && s[i] != ')' && s[i] != ';'
    requires InCode(ModeAt(s, i)) && IsIdentStart(s[i]) ==> DepthAt(s, i) != 0
    ensures Uneventful(s, i, i + 1)
  {
    WordsUnchanged(s, i);
    NoSeparatorStep(s, i);
    assert DepthAt(s, i + 1) == DepthAt(s, i);
  }

  lemma {:induction false} QuietIsUneventful(s: string, i: nat, j: nat)
    requires i <= j <= |s| && Quiet(s, i, j)
    ensures Uneventful(s, i, j)
  {
    if i < j {
      QuietIsUneventful(s, i, j - 1);
      var k := j - 1;
      assert QuietAt(s, k);
      if WordFrom(s, k) < k { WordStep(s, k); }
      UneventfulStep(s, k);
    }
  }

  function Nest(depth: nat, c: char): nat {
    if c == '(' then depth + 1 else if c == ')' && depth > 0 then depth - 1 else depth
  }

  lemma ParenStep(s: string, i: nat)
    requires i < |s| && CodeHead(s, i) && WordClosed(s, i) && (s[i] == '(' || s[i] == ')')
    ensures DepthAt(s, i + 1) == Nest(DepthAt(s, i), s[i])
    ensures WordsAt(s, i + 1) == WordsAt(s, i) && WordFrom(s, i + 1) == i + 1
    ensures NoSeparatorBefore(s, i) ==> NoSeparatorBefore(s, i + 1)
  {
    WordsUnchanged(s, i);
    NoSeparatorStep(s, i);
  }

  /** One step over anything the scanner reads on its own except a separator and
      a word. */
  lemma SingleStep(s: string, i: nat)
    requires i < |s| && Head(s, i) && WordClosed(s, i) && !OpensRegion(s, i) && s[i] != ';'
    requires InCode(ModeAt(s, i)) && IsIdentStart(s[i]) ==> DepthAt(s, i) != 0
    ensures Head(s, i + 1)
    ensures i + 1 < |s| ==> DepthAt(s, i + 1) == Nest(DepthAt(s, i), s[i])
    ensures WordsAt(s, i + 1) == WordsAt(s, i) && WordFrom(s, i + 1) == i + 1
    ensures NoSeparatorBefore(s, i) ==> NoSeparatorBefore(s, i + 1)
  {
    PlainStep(s, i);
    if CodeHead(s, i) && (s[i] == '(' || s[i] == ')') { ParenStep(s, i); } else { UneventfulStep(s, i); }
  }

  /** The lexer is inside, or just past, the word that begins at start. */
  ghost predicate InWord(s: string, start: nat, i: nat)
    requires start < i <= |s|
  {
    && CodeHead(s, i)
    && WordFrom(s, i) == start
    && Completed(s, i) == WordsAt(s, start)
    && DepthAt(s, i) == 0
    && (NoSeparatorBefore(s, start) ==> NoSeparatorBefore(s, i))
  }

  lemma LetterStep(s: string, i: nat)
    requires i < |s| && IsIdentPart(s[i]) && CodeHead(s, i)
    ensures CodeHead(s, i + 1) && DepthAt(s, i + 1) == DepthAt(s, i)
    ensures NoSeparatorBefore(s, i) ==> NoSeparatorBefore(s, i + 1)
  {
    assert ModeAt(s, i + 1) == Next(ModeAt(s, i), s[i]) == Code;
  }

  lemma FirstLetter(s: string, start: nat)
    requires start < |s| && IsIdentStart(s[start]) && CodeHead(s, start) && WordClosed(s, start)
    requires DepthAt(s, start) == 0
    ensures InWord(s, start, start + 1)
  {
    LetterStep(s, start);
    NoWordStep(s, start);
  }

  lemma NextLetter(s: string, start: nat, i: nat)
    requires start < i < |s| && IsIdentPart(s[i]) && InWord(s, start, i)
    ensures InWord(s, start, i + 1)
  {
    LetterStep(s, i);
    WordStep(s, i);
  }

  /** Walks the rest of an identifier that starts at start. */
  method SkipWord(sql: string, start: nat) returns (i: nat)
    requires start < |sql| && IsIdentStart(sql[start]) && Head(sql, start) && WordClosed(sql, start)
    requires InCode(ModeAt(sql, start)) ==> DepthAt(sql, start) == 0
    ensures start < i <= |sql| && (i < |sql| ==> !IsIdentPart(sql[i]))
    ensures if CodeHead(sql, start) then InWord(sql, start, i) else i == |sql| && Rescan(sql, start)
  {
    if CodeHead(sql, start) {
      FirstLetter(sql, start);
    }
    i := start;
    while i < |sql| && IsIdentPart(sql[i])
      invariant start <= i <= |sql|
      invariant i > start ==> if CodeHead(sql, start) then InWord(sql, start, i) else Rescan(sql, start)
    {
      if start < i && CodeHead(sql, start) {
        NextLetter(sql, start, i);
      }
      i := i + 1;
    }
  }

  /** What scanTopLevel has established when it stands at i. */
  ghost predicate Scanned(s: string, i: nat, depth: nat, starters: seq<string>)
    requires i <= |s|
  {
    && Head(s, i) && WordClosed(s, i)
    && (i < |s| ==> depth == DepthAt(s, i))
    && starters == KeywordsOf(WordsAt(s, i))
    && NoSeparatorBefore(s, i)
    && (i == |s| ==> !DanglingSemicolon(s))
  }

  lemma SkipKeeps(s: string, i: nat, j: nat, depth: nat, starters: seq<string>)
    requires i < j <= |s| && Scanned(s, i, depth, starters) && s[i] != ';'
    requires Quiet(s, i, j) && Head(s, j) && (DanglingSemicolon(s) && j == |s| ==> Rescan(s, i))
    ensures Scanned(s, j, depth, starters)
  {
    QuietIsUneventful(s, i, j);
  }

  lemma SingleKeeps(s: string, i: nat, depth: nat, starters: seq<string>)
    requires i < |s| && Scanned(s, i, depth, starters) && !OpensRegion(s, i) && s[i] != ';'
    requires IsIdentStart(s[i]) ==> depth != 0
    ensures Scanned(s, i + 1, Nest(depth, s[i]), starters)
  {
    SingleStep(s, i);
  }

  lemma WordKeeps(s: string, start: nat, i: nat, starters: seq<string>)
    requires start < i <= |s| && Scanned(s, start, 0, starters) && InWord(s, start, i)
    requires i < |s| ==> !IsIdentPart(s[i])
    ensures Scanned(s, i, 0, starters + Keyword(s[start..i]))
  {
    var words, w := WordsAt(s, start), s[start..i];
    assert WordsAt(s, i) == words + [w];
    KeywordsSnoc(words, w);
  }

  /** A letter looked at again at the very end is no keyword. */
  lemma RescanKeeps(s: string, start: nat, starters: seq<string>)
    requires start < |s| && Scanned(s, start, 0, starters) && Rescan(s, start) && IsIdentStart(s[start])
    ensures Scanned(s, |s|, 0, starters + Keyword(s[start..|s|]))
  {
    OneLetterIsNoKeyword(s[start..|s|]);
    assert starters + [] == starters;
    RescanScanned(s, start, starters);
  }

  lemma RescanScanned(s: string, start: nat, starters: seq<string>)
    requires start < |s| && Scanned(s, start, 0, starters) && Rescan(s, start) && s[start] != ';'
    ensures Scanned(s, start + 1, 0, starters)
  {
    assert !InCode(ModeAt(s, start));
    WordsUnchanged(s, start);
    NoSeparatorStep(s, start);
  }

  lemma KeywordsSnoc(words: seq<string>, w: string)
    ensures KeywordsOf(words + [w]) == KeywordsOf(words) + Keyword(w)
  {
    assert (words + [w])[..|words|] == words;
  }

  lemma OneLetterIsNoKeyword(w: string)
    requires |w| == 1
    ensures Keyword(w) == []
  {
    assert |Upper(w)| == 1;
  }

  lemma SeparatorFound(s: string, i: nat, depth: nat, starters: seq<string>)
    requires i < |s| && Scanned(s, i, depth, starters) && s[i] == ';'
    ensures HasSeparator(s) || DanglingSemicolon(s)
  {
    assert CodeHead(s, i) ==> SeparatorAt(s, i);
  }

  lemma ScanEnds(s: string, depth: nat, starters: seq<string>)
    requires Scanned(s, |s|, depth, starters)
    ensures !HasSeparator(s) && !DanglingSemicolon(s) && starters == TopLevelKeywords(s)
  {
    ReadingFindsTheWords(s);
  }

  /** The cases for quotes, brackets and comments. */
  method ScanRegion(sql: string, from: nat, ghost depth: nat, ghost starters: seq<string>) returns (i: nat)
    requires from < |sql| && Scanned(sql, from, depth, starters) && OpensRegion(sql, from)
    ensures from < i <= |sql| && Scanned(sql, i, depth, starters)
  {
    i := SkipRegion(sql, from);
    SkipKeeps(sql, from, i, depth, starters);
  }

  /** The identifier case of the switch. */
  method ScanWord(sql: string, start: nat, starters: seq<string>) returns (i: nat, found: seq<string>)
    requires start < |sql| && Scanned(sql, start, 0, starters) && IsIdentStart(sql[start])
    ensures start < i <= |sql| && Scanned(sql, i, 0, found)
  {
    i := SkipWord(sql, start);
    if CodeHead(sql, start) { WordKeeps(sql, start, i, starters); } else { RescanKeeps(sql, start, starters); }
    found := starters + Keyword(sql[start..i]);
  }

  /** The cases for a parenthesis and for everything else that is read alone. */
  method ScanSingle(sql: string, i: nat, depth: nat, starters: seq<string>) returns (inner: nat)
    requires i < |sql| && Scanned(sql, i, depth, starters) && !OpensRegion(sql, i) && sql[i] != ';'
    requires IsIdentStart(sql[i]) ==> depth != 0
    ensures Scanned(sql, i + 1, inner, starters)
  {
    SingleKeeps(sql, i, depth, starters);
    inner := depth;
    if sql[i] == '(' {
      inner := depth + 1;
    } else if sql[i] == ')' {
      if depth > 0 {
        inner := depth - 1;
      }
    }
  }

  /** Returns the statement keywords at depth 0 in code, in order, unless the
      scan meets a separator first. */
  method ScanTopLevel(sql: string) returns (starters: seq<string>, multi: bool)
    ensures multi <==> HasSeparator(sql) || DanglingSemicolon(sql)
    ensures !multi ==> starters == TopLevelKeywords(sql)
  {
    starters := [];
    var depth := 0;
    var i := 0;
    while i < |sql|
      invariant i <= |sql| && Scanned(sql, i, depth, starters)
      decreases |sql| - i
    {
      var c := sql[i];
      if OpensRegion(sql, i) {
        i := ScanRegion(sql, i, depth, starters);
      } else if c == ';' {
        SeparatorFound(sql, i, depth, starters);
        return starters, true;
      } else if depth == 0 && IsIdentStart(c) {
        i, starters := ScanWord(sql, i, starters);
      } else {
        depth := ScanSingle(sql, i, depth, starters);
        i := i + 1;
      }
    }
    ScanEnds(sql, depth, starters);
    return starters, false;
  }

  /** What the agent's scanner takes for one statement. */
  ghost predicate SingleForAgent(sql: string) { !HasSeparator(sql) && !DanglingSemicolon(sql) }

  datatype Verdict = Accepted | MultipleRefused | NonSelectRefused | NotSelectRefused

  predicate StartsWithKeyword(sql: string, keyword: string) {
    keyword <= Upper(TrimLeft(sql))
  }

  /** One statement, and that statement a SELECT: either by its first word, or
      after WITH by the first statement keyword outside every parenthesis. */
  ghost predicate ReadOnlySelect(sql: string) {
    && SingleForAgent(sql)
    && (|| StartsWithKeyword(sql, "SELECT")
        || (StartsWithKeyword(sql, "WITH") && ["SELECT"] <= TopLevelKeywords(sql)))
  }

  method ValidateReadOnlySQL(sql: string) returns (v: Verdict)
    ensures v == Accepted <==> ReadOnlySelect(sql)
    ensures v == MultipleRefused <==> !SingleForAgent(sql)
    ensures v == NonSelectRefused <==>
            && SingleForAgent(sql) && !StartsWithKeyword(sql, "SELECT") && StartsWithKeyword(sql, "WITH")
            && !(["SELECT"] <= TopLevelKeywords(sql))
    ensures v == NotSelectRefused <==>
            SingleForAgent(sql) && !StartsWithKeyword(sql, "SELECT") && !StartsWithKeyword(sql, "WITH")
  {
    var starters, multi := ScanTopLevel(sql);
    if multi {
      return MultipleRefused;
    }
    if StartsWithKeyword(sql, "SELECT") {
      return Accepted;
    }
    if StartsWithKeyword(sql, "WITH") {
      if |starters| == 0 || starters[0] != "SELECT" {
        return NonSelectRefused;
      }
      return Accepted;
    }
    return NotSelectRefused;
  }

  /** What the agent side accepts, RawSQL does not refuse as multi-statement. */
  lemma AcceptedIsSingle(sql: string)
    requires ReadOnlySelect(sql)
    ensures !MultipleStatements(sql)
  {}

  /** The two guards disagree on exactly one kind of text (dangling comments
      apart): one whose first separator is its last visible character. */
  lemma GuardsDifferExactly(sql: string)
    ensures MultipleStatements(sql) ==> HasSeparator(sql)
    ensures HasSeparator(sql) && !MultipleStatements(sql) <==>
            exists k | 0 <= k < |sql| :: SeparatorAt(sql, k) && NoSeparatorBefore(sql, k) && Blank(sql[k + 1..])
  {
    if HasSeparator(sql) {
      var k := FirstSeparator(sql, |sql|);
      assert SeparatorAt(sql, k);
    }
    forall k | 0 <= k < |sql| && SeparatorAt(sql, k) && NoSeparatorBefore(sql, k) && Blank(sql[k + 1..])
      ensures !MultipleStatements(sql)
    {
      forall j | k < j < |sql| ensures !SeparatorAt(sql, j) {
        assert sql[j] == sql[k + 1..][j - k - 1];
      }
    }
  }

  lemma FirstSeparator(sql: string, n: nat) returns (k: nat)
    requires n <= |sql| && !NoSeparatorBefore(sql, n)
    ensures k < n && SeparatorAt(sql, k) && NoSeparatorBefore(sql, k)
  {
    if NoSeparatorBefore(sql, n - 1) {
      k := n - 1;
    } else {
      k := FirstSeparator(sql, n - 1);
    }
  }

  /** The agent's scanner refuses a semicolon the lexer sees as comment text. */
  lemma DanglingCommentRefused()
    ensures !HasSeparator("/* ;") && DanglingSemicolon("/* ;") && !MultipleStatements("/* ;")
  {
    var s := "/* ;";
    assert ModeAt(s, 1) == Slash;
    assert ModeAt(s, 2) == Block;
    assert ModeAt(s, 3) == Block;
    assert ModeAt(s, 4) == Block;
  }
}
