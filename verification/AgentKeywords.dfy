/** What the agent accepts, said with the words of the text and the spellings of
    the keywords alone. */
module AgentKeywords {
  import opened Text
  import opened SqlLexer
  import opened AgentScanner
  import Like

  /** The word is this keyword, up to ASCII case. */
  predicate Says(word: string, keyword: string) {
    |word| == |keyword| && forall i | 0 <= i < |word| :: Like.Fold(word[i]) == keyword[i]
  }

  /** The letter of a keyword as strings.ToUpper sees it: besides the ASCII letter,
      the dotless i and the long s have ASCII capitals. */
  predicate Spells(c: char, letter: char) {
    || Like.Fold(c) == letter
    || (letter == 'i' && c == '\U{0131}')
    || (letter == 's' && c == '\U{017F}')
  }

  /** The first visible characters spell the keyword. */
  predicate BeginsWith(text: string, keyword: string) {
    var first := SkipSpaces(text, 0);
    first + |keyword| <= |text| && forall i | 0 <= i < |keyword| :: Spells(text[first + i], keyword[i])
  }

  /** upper is keyword in capitals. */
  predicate Capitals(upper: string, keyword: string) {
    && |upper| == |keyword|
    && forall i | 0 <= i < |keyword| :: 'a' <= keyword[i] <= 'z' && upper[i] == keyword[i] - 'a' + 'A'
  }

  lemma UpperCharSpells(c: char, letter: char)
    requires 'a' <= letter <= 'z'
    ensures UpperChar(c) == letter - 'a' + 'A' <==> Spells(c, letter)
  {}

  lemma UpperSpells(text: string, upper: string, keyword: string)
    requires Capitals(upper, keyword) && |text| == |keyword|
    ensures Upper(text) == upper <==> forall i | 0 <= i < |keyword| :: Spells(text[i], keyword[i])
  {
    forall i | 0 <= i < |keyword|
      ensures Upper(text)[i] == upper[i] <==> Spells(text[i], keyword[i])
    {
      UpperCharSpells(text[i], keyword[i]);
    }
  }

  lemma StartsAsSpelled(text: string, upper: string, keyword: string)
    requires Capitals(upper, keyword)
    ensures StartsWithKeyword(text, upper) <==> BeginsWith(text, keyword)
  {
    var first := SkipSpaces(text, 0);
    var shown := TrimLeft(text);
    var n := |keyword|;
    if first + n <= |text| {
      var head := text[first..first + n];
      UpperSpells(head, upper, keyword);
      assert shown[..n] == head;
      assert Upper(shown)[..n] == Upper(head);
      assert upper <= Upper(shown) <==> Upper(shown)[..n] == upper;
      assert forall i | 0 <= i < n :: head[i] == text[first + i];
    }
  }

  /** Words are ASCII, so only ASCII letters spell keywords in them. */
  lemma WordIsSpelled(word: string, upper: string, keyword: string)
    requires Identifier(word, 0, |word|) && Capitals(upper, keyword)
    ensures Upper(word) == upper <==> Says(word, keyword)
  {
    if |word| == |keyword| {
      UpperSpells(word, upper, keyword);
      assert forall i | 0 <= i < |word| :: IsIdentPart(word[i]);
      assert forall i | 0 <= i < |word| :: Spells(word[i], keyword[i]) <==> Like.Fold(word[i]) == keyword[i];
    } else {
      assert |Upper(word)| != |upper|;
    }
  }

  /** The statement keyword a word is, in capitals, if it is one. */
  lemma KeywordIsSpelled(word: string)
    requires Identifier(word, 0, |word|)
    ensures Keyword(word) ==
            if Says(word, "select") then ["SELECT"]
            else if Says(word, "insert") then ["INSERT"]
            else if Says(word, "update") then ["UPDATE"]
            else if Says(word, "delete") then ["DELETE"]
            else if Says(word, "replace") then ["REPLACE"]
            else []
  {
    WordIsSpelled(word, "SELECT", "select");
    WordIsSpelled(word, "INSERT", "insert");
    WordIsSpelled(word, "UPDATE", "update");
    WordIsSpelled(word, "DELETE", "delete");
    WordIsSpelled(word, "REPLACE", "replace");
  }

  predicate WordsAreIdentifiers(words: seq<string>) {
    forall k | 0 <= k < |words| :: Identifier(words[k], 0, |words[k]|)
  }

  lemma {:induction false} TopLevelWordsAreIdentifiers(s: string, i: nat)
    requires i <= |s|
    ensures WordsAreIdentifiers(WordsBefore(s, i))
  {
    if i > 0 {
      TopLevelWordsAreIdentifiers(s, i - 1);
      var e := WordEnd(s, i - 1);
      var w := s[i - 1..e];
      assert forall k | 0 <= k < |w| :: w[k] == s[i - 1 + k];
    }
  }

  /** The word is none of the statement keywords. */
  predicate Ordinary(word: string) {
    && !Says(word, "select") && !Says(word, "insert") && !Says(word, "update")
    && !Says(word, "delete") && !Says(word, "replace")
  }

  lemma OrdinaryHasNoKeyword(word: string)
    requires Identifier(word, 0, |word|)
    ensures Keyword(word) == [] <==> Ordinary(word)
    ensures ["SELECT"] <= Keyword(word) <==> Says(word, "select")
  {
    KeywordIsSpelled(word);
    assert "INSERT"[0] == 'I' && "UPDATE"[0] == 'U' && "DELETE"[0] == 'D' && "REPLACE"[0] == 'R' && "SELECT"[0] == 'S';
  }

  predicate AllOrdinary(words: seq<string>, n: nat)
    requires n <= |words|
  {
    forall j | 0 <= j < n :: Ordinary(words[j])
  }

  predicate SelectAt(words: seq<string>, k: nat)
    requires k < |words|
  {
    Says(words[k], "select") && AllOrdinary(words, k)
  }

  predicate SelectFirst(words: seq<string>, n: nat)
    requires n <= |words|
  {
    exists k: nat | k < n :: SelectAt(words, k)
  }

  lemma OneKeywordMore(before: seq<string>, more: seq<string>)
    ensures before != [] ==> (["SELECT"] <= before + more <==> ["SELECT"] <= before)
    ensures before == [] ==> before + more == more
  {
    if before != [] {
      assert (before + more)[0] == before[0];
    }
  }

  /** The keywords of the first n words. */
  lemma {:induction false} FirstKeyword(words: seq<string>, n: nat)
    requires n <= |words| && WordsAreIdentifiers(words)
    ensures KeywordsOf(words[..n]) == [] <==> AllOrdinary(words, n)
    ensures ["SELECT"] <= KeywordsOf(words[..n]) <==> SelectFirst(words, n)
  {
    if n > 0 {
      FirstKeyword(words, n - 1);
      var last := words[n - 1];
      assert words[..n] == words[..n - 1] + [last];
      KeywordsSnoc(words[..n - 1], last);
      assert Identifier(words[n - 1], 0, |words[n - 1]|);
      OrdinaryHasNoKeyword(last);
      OneKeywordMore(KeywordsOf(words[..n - 1]), Keyword(last));
      SelectFirstGrows(words, n - 1);
    }
  }

  lemma SelectFirstGrows(words: seq<string>, n: nat)
    requires n < |words|
    ensures AllOrdinary(words, n + 1) <==> AllOrdinary(words, n) && Ordinary(words[n])
    ensures SelectFirst(words, n + 1) <==> SelectFirst(words, n) || (AllOrdinary(words, n) && Says(words[n], "select"))
    ensures SelectFirst(words, n) ==> !AllOrdinary(words, n)
  {
    if SelectFirst(words, n + 1) {
      var k: nat :| k < n + 1 && SelectAt(words, k);
      assert k < n ==> SelectFirst(words, n);
    }
    if AllOrdinary(words, n) && Says(words[n], "select") {
      assert SelectAt(words, n);
    }
    if SelectFirst(words, n) {
      var k: nat :| k < n && SelectAt(words, k);
      assert !Ordinary(words[k]);
    }
  }

  /** The agent accepts a text exactly if it is one statement and either begins
      with SELECT, or begins with WITH and has, among its words in code outside
      every parenthesis, a SELECT before any other statement keyword. */
  lemma AcceptedExactly(sql: string)
    ensures var words := WordsBefore(sql, |sql|);
            ReadOnlySelect(sql) <==>
            && SingleForAgent(sql)
            && (|| BeginsWith(sql, "select")
                || (&& BeginsWith(sql, "with")
                    && exists k: nat | k < |words| ::
                         && Says(words[k], "select")
                         && forall j: nat | j < k ::
                              && !Says(words[j], "select") && !Says(words[j], "insert") && !Says(words[j], "update")
                              && !Says(words[j], "delete") && !Says(words[j], "replace")))
  {
    StartsAsSpelled(sql, "SELECT", "select");
    StartsAsSpelled(sql, "WITH", "with");
    SelectLeads(sql);
    SpelledOut(WordsBefore(sql, |sql|));
  }

  lemma SelectLeads(sql: string)
    ensures var words := WordsBefore(sql, |sql|);
            ["SELECT"] <= TopLevelKeywords(sql) <==> SelectFirst(words, |words|)
  {
    var words := WordsBefore(sql, |sql|);
    TopLevelWordsAreIdentifiers(sql, |sql|);
    assert words[..|words|] == words;
    FirstKeyword(words, |words|);
  }

  lemma SpelledOut(words: seq<string>)
    ensures SelectFirst(words, |words|) <==>
            exists k: nat | k < |words| ::
              && Says(words[k], "select")
              && forall j: nat | j < k ::
                   && !Says(words[j], "select") && !Says(words[j], "insert") && !Says(words[j], "update")
                   && !Says(words[j], "delete") && !Says(words[j], "replace")
  {
    forall k: nat | k < |words|
      ensures SelectAt(words, k) <==>
              && Says(words[k], "select")
              && forall j: nat | j < k ::
                   && !Says(words[j], "select") && !Says(words[j], "insert") && !Says(words[j], "update")
                   && !Says(words[j], "delete") && !Says(words[j], "replace")
    {
      if SelectAt(words, k) {
        assert forall j: nat | j < k :: Ordinary(words[j]);
      }
    }
  }
}
