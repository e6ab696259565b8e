/** Store.QueryText: free-text search compiled to escaped LIKE patterns. */
module TextSearch {
  import opened Text
  import opened Events
  import opened Query
  import opened Filters
  import Like
  import SqlText

  const TEXT_SEARCH_COLUMNS: seq<Column> :=
    [Category, Action, Comm, Exe, Path, OldPath, LocalAddr, RemoteAddr, RemoteHost, ContainerId, CgroupPath]

  /** The text in a column of an event. */
  function TextOf(c: Column, e: Event): string {
    match Cell(c, e) case Str(s) => s case Int(_) => ""
  }

  /** Every term occurs in some of the columns, up to ASCII case. */
  predicate Finds(cs: seq<Column>, terms: seq<string>, e: Event) {
    forall t | t in terms :: FindsTerm(cs, t, e)
  }

  /** The terms actually searched for; lower stands for strings.ToLower. */
  function Normalized(terms: seq<string>, lower: string -> string): seq<string> {
    if terms == [] then [] else
      var before := Normalized(terms[..|terms| - 1], lower);
      var t := lower(TrimSpace(terms[|terms| - 1]));
      if t != "" then before + [t] else before
  }

  method NormalizeTerms(terms: seq<string>, lower: string -> string) returns (out: seq<string>)
    ensures out == Normalized(terms, lower)
    ensures "" !in out
  {
    out := [];
    for i := 0 to |terms|
      invariant out == Normalized(terms[..i], lower) && "" !in out
    {
      assert terms[..i + 1][..i] == terms[..i];
      var term := lower(TrimSpace(terms[i]));
      if term != "" {
        out := out + [term];
      }
    }
    assert terms[..|terms|] == terms;
  }

  function LikeTests(cs: seq<Column>): (r: seq<Test>)
    ensures |r| == |cs|
  {
    if cs == [] then [] else LikeTests(cs[..|cs| - 1]) + [LoweredLike(cs[|cs| - 1])]
  }

  function Copies(v: Value, n: nat): (r: seq<Value>)
    ensures |r| == n
  {
    if n == 0 then [] else Copies(v, n - 1) + [v]
  }

  function Pattern(term: string): Value { Str("%" + Like.EscapeLike(term) + "%") }

  /** The clause for one term over the columns cs. */
  function ColumnsBound(cs: seq<Column>, term: string): Bound {
    Bound(Any(LikeTests(cs)), Copies(Pattern(term), |cs|))
  }

  function TermBounds(cs: seq<Column>, terms: seq<string>): (r: seq<Bound>)
    ensures |r| == |terms|
  {
    if terms == [] then [] else TermBounds(cs, terms[..|terms| - 1]) + [ColumnsBound(cs, terms[|terms| - 1])]
  }

  /** The test of one column with a pattern for argument. */
  predicate ColumnMatches(c: Column, v: Value, e: Event) {
    LikeValue(Lowered(Cell(c, e)), v, Like.BACKSLASH)
  }

  lemma EvalAnySnoc(ts: seq<Test>, t: Test, args: seq<Value>, v: Value, e: Event)
    requires |args| == TestsHoles(ts) && TestHoles(t) == 1
    ensures TestsHoles(ts + [t]) == |args| + 1
    ensures EvalAnyTest(ts + [t], args + [v], e) <==> EvalAnyTest(ts, args, e) || EvalTest(t, [v], e)
  {
    assert (ts + [t])[..|ts|] == ts;
    assert (args + [v])[..|args|] == args && (args + [v])[|args|..] == [v];
  }

  lemma LikeTestsGrow(cs: seq<Column>, c: Column, v: Value)
    ensures LikeTests(cs + [c]) == LikeTests(cs) + [LoweredLike(c)]
    ensures Copies(v, |cs + [c]|) == Copies(v, |cs|) + [v]
  {
    assert (cs + [c])[..|cs|] == cs;
  }

  ghost predicate SomeColumnMatches(cs: seq<Column>, v: Value, e: Event) {
    exists c | c in cs :: ColumnMatches(c, v, e)
  }

  lemma SomeColumnSnoc(cs: seq<Column>, c: Column, v: Value, e: Event)
    ensures SomeColumnMatches(cs + [c], v, e) <==> SomeColumnMatches(cs, v, e) || ColumnMatches(c, v, e)
  {
    assert forall x :: x in cs + [c] <==> x in cs || x == c;
    if ColumnMatches(c, v, e) {
      assert c in cs + [c];
    }
  }

  /** Each pattern goes to its own column. */
  lemma {:induction false} AnyColumn(cs: seq<Column>, v: Value, e: Event)
    ensures TestsHoles(LikeTests(cs)) == |cs|
    ensures EvalAnyTest(LikeTests(cs), Copies(v, |cs|), e) <==> SomeColumnMatches(cs, v, e)
  {
    if cs != [] {
      var front, last := cs[..|cs| - 1], cs[|cs| - 1];
      assert cs == front + [last];
      AnyColumn(front, v, e);
      LikeTestsGrow(front, last, v);
      EvalAnySnoc(LikeTests(front), LoweredLike(last), Copies(v, |front|), v, e);
      SomeColumnSnoc(front, last, v, e);
    }
  }

  predicate Textual(cs: seq<Column>) { forall c | c in cs :: IsTextual(c) }

  predicate IsTextual(c: Column) { c != Ts && c != Pid && c != Uid }

  lemma ColumnSearch(c: Column, t: string, e: Event)
    requires IsTextual(c)
    ensures ColumnMatches(c, Pattern(t), e) <==> InColumn(c, t, e)
  {
    var s := TextOf(c, e);
    Like.EscapedTermIsSubstringSearch(t, Like.FoldAll(s));
    Like.LoweringIsIrrelevant(s, t);
  }

  predicate InColumn(c: Column, t: string, e: Event) { Like.Contains(TextOf(c, e), t) }

  predicate FindsTerm(cs: seq<Column>, t: string, e: Event) {
    exists c | c in cs :: InColumn(c, t, e)
  }

  lemma TermHolds(cs: seq<Column>, t: string, e: Event)
    requires Textual(cs)
    ensures Holds(ColumnsBound(cs, t), e) <==> FindsTerm(cs, t, e)
    ensures |ColumnsBound(cs, t).args| == Holes(ColumnsBound(cs, t).clause)
  {
    AnyColumn(cs, Pattern(t), e);
    forall c | c in cs
      ensures ColumnMatches(c, Pattern(t), e) <==> InColumn(c, t, e)
    {
      assert IsTextual(c);
      ColumnSearch(c, t, e);
    }
  }

  lemma TermBoundsGrow(cs: seq<Column>, terms: seq<string>, t: string)
    ensures TermBounds(cs, terms + [t]) == TermBounds(cs, terms) + [ColumnsBound(cs, t)]
  {
    assert (terms + [t])[..|terms|] == terms;
  }

  lemma {:induction false} TermBoundsHold(cs: seq<Column>, terms: seq<string>, e: Event)
    requires Textual(cs)
    ensures WellBound(TermBounds(cs, terms))
    ensures AllHold(TermBounds(cs, terms), e) <==> Finds(cs, terms, e)
  {
    if terms != [] {
      var front, last := terms[..|terms| - 1], terms[|terms| - 1];
      assert terms == front + [last];
      TermBoundsHold(cs, front, e);
      TermBoundsGrow(cs, front, last);
      AllHoldSnoc(TermBounds(cs, front), ColumnsBound(cs, last), e);
      TermHolds(cs, last, e);
      FindsSnoc(cs, front, last, e);
    }
  }

  lemma FindsSnoc(cs: seq<Column>, terms: seq<string>, t: string, e: Event)
    ensures Finds(cs, terms + [t], e) <==> Finds(cs, terms, e) && FindsTerm(cs, t, e)
  {
    assert forall x :: x in terms + [t] <==> x in terms || x == t;
  }

  /** The compiled search finds exactly the events in which every term occurs, as
      literal text, in some column - wildcards and backslashes included. */
  lemma SearchKeepsMeaning(cs: seq<Column>, terms: seq<string>, e: Event)
    requires Textual(cs)
    ensures var bs := TermBounds(cs, terms);
            && |Args(bs)| == AllHoles(Clauses(bs)) == Marks(Join(Texts(bs), " AND "))
            && (EvalWhere(Clauses(bs), Args(bs), e) <==> Finds(cs, terms, e))
  {
    TermBoundsHold(cs, terms, e);
    EachClauseGetsItsArgs(TermBounds(cs, terms), e);
    OneMarkPerArgument(TermBounds(cs, terms));
  }

  // ---- the terms as the user typed them ----

  /** lower does to t what SQLite's lower() does: it folds ASCII letters only. */
  predicate FoldsAlike(lower: string -> string, t: string) {
    Like.FoldAll(lower(t)) == Like.FoldAll(t)
  }

  /** Every term with anything in it occurs in some searched column. */
  predicate FindsAsTyped(cs: seq<Column>, terms: seq<string>, e: Event) {
    forall t | t in terms && TrimSpace(t) != "" :: FindsTerm(cs, TrimSpace(t), e)
  }

  lemma FoldedTermSameSearch(cs: seq<Column>, t: string, u: string, e: Event)
    requires Like.FoldAll(t) == Like.FoldAll(u)
    ensures FindsTerm(cs, t, e) <==> FindsTerm(cs, u, e)
  {
    forall c | c in cs
      ensures InColumn(c, t, e) <==> InColumn(c, u, e)
    {
      Like.FoldedTermOccursAlike(TextOf(c, e), t, u);
    }
  }

  lemma {:induction false} NormalizedAsTyped(cs: seq<Column>, terms: seq<string>, lower: string -> string, e: Event)
    requires forall t | t in terms :: FoldsAlike(lower, TrimSpace(t))
    ensures Finds(cs, Normalized(terms, lower), e) <==> FindsAsTyped(cs, terms, e)
  {
    if terms != [] {
      var front, last := terms[..|terms| - 1], terms[|terms| - 1];
      assert terms == front + [last] && last in terms;
      assert forall t :: t in terms <==> t in front || t == last;
      NormalizedAsTyped(cs, front, lower, e);
      var typed := TrimSpace(last);
      assert |lower(typed)| == |Like.FoldAll(lower(typed))| == |typed|;
      FoldedTermSameSearch(cs, lower(typed), typed, e);
      FindsSnoc(cs, Normalized(front, lower), lower(typed), e);
    }
  }

  /** Where lower-casing stays within ASCII, the compiled search finds exactly the
      events in which every term occurs as it was typed, up to ASCII case. */
  lemma SearchFindsTheTypedTerms(cs: seq<Column>, terms: seq<string>, lower: string -> string, e: Event)
    requires Textual(cs) && forall t | t in terms :: FoldsAlike(lower, TrimSpace(t))
    ensures var bs := TermBounds(cs, Normalized(terms, lower));
            && |Args(bs)| == AllHoles(Clauses(bs))
            && (EvalWhere(Clauses(bs), Args(bs), e) <==> FindsAsTyped(cs, terms, e))
  {
    SearchKeepsMeaning(cs, Normalized(terms, lower), e);
    NormalizedAsTyped(cs, terms, lower, e);
  }

  lemma SearchedColumnsAreText()
    ensures Textual(TEXT_SEARCH_COLUMNS)
  {}

  /** A text finds itself exactly if lower-casing it stays within ASCII: the term is
      lowered as Unicode, the column only as ASCII. */
  lemma TermFindsItself(t: string, lower: string -> string)
    requires |lower(t)| == |t|
    ensures Like.Contains(t, lower(t)) <==> FoldsAlike(lower, t)
  {
    Like.SameLengthOccursAtStart(t, lower(t));
  }

  // ---- the compiler ----

  function ColumnTexts(cs: seq<Column>): seq<string> { TestTexts(LikeTests(cs)) }

  lemma ColumnTextsGrow(cs: seq<Column>, c: Column)
    ensures ColumnTexts(cs + [c]) == ColumnTexts(cs) + [LoweredText(c)]
  {
    var ts, t := LikeTests(cs), LoweredLike(c);
    LikeTestsGrow(cs, c, Int(0));
    assert (ts + [t])[..|ts|] == ts;
  }

  /** The clause for one term: one pattern argument per column. */
  method CompileTerm(columns: seq<Column>, term: string, args0: seq<Value>) returns (text: string, args: seq<Value>)
    ensures text == TermText(columns) && args == args0 + Copies(Pattern(term), |columns|)
  {
    var pattern := Pattern(term);
    var col: seq<string> := [];
    args := args0;
    ghost var done: seq<Column> := [];
    for i := 0 to |columns|
      invariant done == columns[..i]
      invariant col == ColumnTexts(done) && args == args0 + Copies(pattern, |done|)
    {
      ColumnTextsGrow(done, columns[i]);
      LikeTestsGrow(done, columns[i], pattern);
      col := col + [LoweredText(columns[i])];
      args := args + [pattern];
      done := done + [columns[i]];
    }
    assert done == columns;
    text := "(" + Join(col, " OR ") + ")";
  }

  function TermText(cs: seq<Column>): string { "(" + Join(ColumnTexts(cs), " OR ") + ")" }

  lemma TermTextsGrow(cs: seq<Column>, terms: seq<string>, t: string)
    ensures Texts(TermBounds(cs, terms + [t])) == Texts(TermBounds(cs, terms)) + [TermText(cs)]
    ensures Args(TermBounds(cs, terms + [t])) == Args(TermBounds(cs, terms)) + Copies(Pattern(t), |cs|)
  {
    var b := ColumnsBound(cs, t);
    TermBoundsGrow(cs, terms, t);
    Append(TermBounds(cs, terms), b);
    assert ClauseText(b.clause) == TermText(cs);
  }

  /** where and args are what the terms so far compile to. */
  ghost predicate CompiledSoFar(cs: seq<Column>, terms: seq<string>, where: seq<string>, args: seq<Value>) {
    where == Texts(TermBounds(cs, terms)) && args == Args(TermBounds(cs, terms))
  }

  lemma CompiledGrows(cs: seq<Column>, terms: seq<string>, t: string, where: seq<string>, args: seq<Value>)
    requires CompiledSoFar(cs, terms, where, args)
    ensures CompiledSoFar(cs, terms + [t], where + [TermText(cs)], args + Copies(Pattern(t), |cs|))
  {
    TermTextsGrow(cs, terms, t);
  }

  method CompileTerms(columns: seq<Column>, terms: seq<string>) returns (where: seq<string>, args: seq<Value>)
    ensures where == Texts(TermBounds(columns, terms)) && args == Args(TermBounds(columns, terms))
  {
    where, args := [], [];
    ghost var done: seq<string> := [];
    for i := 0 to |terms|
      invariant done == terms[..i] && CompiledSoFar(columns, done, where, args)
    {
      CompiledGrows(columns, done, terms[i], where, args);
      var text;
      text, args := CompileTerm(columns, terms[i], args);
      where := where + [text];
      done := done + [terms[i]];
    }
    assert done == terms;
  }

  /** The text selects the events that all the terms are found in. */
  predicate Answers(terms: seq<string>, text: string, args: seq<Value>, e: Event) {
    SqlText.Selects(text, args, e) == Finds(TEXT_SEARCH_COLUMNS, terms, e)
  }

  lemma SearchReads(terms: seq<string>, limit: Value)
    ensures var bs := TermBounds(TEXT_SEARCH_COLUMNS, terms);
            forall e: Event :: Answers(terms, Select(bs) + NEWEST_FIRST, Args(bs) + [limit], e)
  {
    var bs := TermBounds(TEXT_SEARCH_COLUMNS, terms);
    SearchedColumnsAreText();
    OrderBy(NEWEST_FIRST);
    forall e: Event
      ensures Answers(terms, Select(bs) + NEWEST_FIRST, Args(bs) + [limit], e)
    {
      TermBoundsHold(TEXT_SEARCH_COLUMNS, terms, e);
      SelectReads(bs, NEWEST_FIRST, NEWEST_FIRST[10..], limit, e);
    }
  }

  lemma {:induction false} FindsTermSnoc(cs: seq<Column>, c: Column, t: string, e: Event)
    ensures FindsTerm(cs + [c], t, e) <==> FindsTerm(cs, t, e) || InColumn(c, t, e)
  {
    assert forall x :: x in cs + [c] <==> x in cs || x == c;
    if InColumn(c, t, e) {
      assert c in cs + [c];
    }
  }

  lemma AddressColumns(cs: seq<Column>, t: string, e: Event)
    ensures FindsTerm(cs + [LocalAddr] + [RemoteAddr] + [RemoteHost] + [ContainerId] + [CgroupPath], t, e) <==>
            || FindsTerm(cs, t, e) || Like.Contains(e.localAddr, t) || Like.Contains(e.remoteAddr, t)
            || Like.Contains(e.remoteHost, t) || Like.Contains(e.containerId, t) || Like.Contains(e.cgroupPath, t)
  {
    var a := cs + [LocalAddr] + [RemoteAddr];
    FindsTermSnoc(cs, LocalAddr, t, e);
    FindsTermSnoc(cs + [LocalAddr], RemoteAddr, t, e);
    FindsTermSnoc(a, RemoteHost, t, e);
    FindsTermSnoc(a + [RemoteHost], ContainerId, t, e);
    FindsTermSnoc(a + [RemoteHost] + [ContainerId], CgroupPath, t, e);
  }

  lemma ProcessColumns(t: string, e: Event)
    ensures FindsTerm([] + [Category] + [Action] + [Comm] + [Exe] + [Path] + [OldPath], t, e) <==>
            || Like.Contains(e.category, t) || Like.Contains(e.action, t) || Like.Contains(e.comm, t)
            || Like.Contains(e.exe, t) || Like.Contains(e.path, t) || Like.Contains(e.oldPath, t)
  {
    var a: seq<Column> := [] + [Category] + [Action] + [Comm];
    FindsTermSnoc([], Category, t, e);
    FindsTermSnoc([] + [Category], Action, t, e);
    FindsTermSnoc([] + [Category] + [Action], Comm, t, e);
    FindsTermSnoc(a, Exe, t, e);
    FindsTermSnoc(a + [Exe], Path, t, e);
    FindsTermSnoc(a + [Exe] + [Path], OldPath, t, e);
  }

  /** The columns a term is looked for in. */
  lemma SearchedColumns(t: string, e: Event)
    ensures FindsTerm(TEXT_SEARCH_COLUMNS, t, e) <==>
            || Like.Contains(e.category, t) || Like.Contains(e.action, t) || Like.Contains(e.comm, t)
            || Like.Contains(e.exe, t) || Like.Contains(e.path, t) || Like.Contains(e.oldPath, t)
            || Like.Contains(e.localAddr, t) || Like.Contains(e.remoteAddr, t) || Like.Contains(e.remoteHost, t)
            || Like.Contains(e.containerId, t) || Like.Contains(e.cgroupPath, t)
  {
    var first: seq<Column> := [] + [Category] + [Action] + [Comm] + [Exe] + [Path] + [OldPath];
    var all := first + [LocalAddr] + [RemoteAddr] + [RemoteHost] + [ContainerId] + [CgroupPath];
    ProcessColumns(t, e);
    AddressColumns(first, t, e);
    ListedInOrder();
    assert TEXT_SEARCH_COLUMNS == all;
  }

  lemma ListedInOrder()
    ensures TEXT_SEARCH_COLUMNS ==
            [] + [Category] + [Action] + [Comm] + [Exe] + [Path] + [OldPath]
               + [LocalAddr] + [RemoteAddr] + [RemoteHost] + [ContainerId] + [CgroupPath]
  {}

  /** Store.QueryText, up to running the statement; None when no term is left. */
  method CompileSearch(terms: seq<string>, limit: int, lower: string -> string)
    returns (r: Option<(string, seq<Value>)>)
    ensures r.None? <==> Normalized(terms, lower) == []
    ensures r.Some? ==>
              var bs := TermBounds(TEXT_SEARCH_COLUMNS, Normalized(terms, lower));
              && r.value.0 == Select(bs) + " ORDER BY ts DESC, id DESC LIMIT ?"
              && r.value.1 == Args(bs) + [Int(if limit <= 0 then 200 else limit)]
    ensures r.Some? ==> forall e: Event :: Answers(Normalized(terms, lower), r.value.0, r.value.1, e)
  {
    var searched := NormalizeTerms(terms, lower);
    if |searched| == 0 {
      return None;
    }
    var where, args := CompileTerms(TEXT_SEARCH_COLUMNS, searched);
    SearchReads(searched, Int(LimitOr(limit, 200)));
    var query := "SELECT " + EventColumns() + " FROM events" + " WHERE " + Join(where, " AND ");
    return Some((query + " ORDER BY ts DESC, id DESC LIMIT ?", args + [Int(LimitOr(limit, 200))]));
  }
}
