/** What a prepared statement's text selects, read from the text itself: it is cut
    at " ORDER BY ", " WHERE ", " AND " and, inside parentheses, at " OR "; each
    piece is read as a column, an operator and its question marks.  The reader
    knows nothing of how the text was made. */
module SqlText {
  import opened Text
  import opened Events
  import opened Query
  import Like

  // ---- cutting ----

  /** strings.Split */
  function Split(s: string, sep: string): seq<string>
    requires sep != ""
    decreases |s|
  {
    var i := IndexFrom(s, sep, 0);
    if i.None? then [s] else [s[..i.value]] + Split(s[i.value + |sep|..], sep)
  }

  // ---- reading ----

  /** The value of the column so named. */
  function CellNamed(name: string, e: Event): Option<Value> {
    if name == "ts" then Some(Int(e.ts))
    else if name == "pid" then Some(Int(e.pid))
    else if name == "uid" then Some(Int(e.uid))
    else if name == "category" then Some(Str(e.category))
    else if name == "action" then Some(Str(e.action))
    else if name == "comm" then Some(Str(e.comm))
    else if name == "exe" then Some(Str(e.exe))
    else if name == "path" then Some(Str(e.path))
    else if name == "old_path" then Some(Str(e.oldPath))
    else if name == "local_addr" then Some(Str(e.localAddr))
    else if name == "remote_addr" then Some(Str(e.remoteAddr))
    else if name == "remote_host" then Some(Str(e.remoteHost))
    else if name == "container_id" then Some(Str(e.containerId))
    else if name == "cgroup_path" then Some(Str(e.cgroupPath))
    else None
  }

  /** "?,?,?", or nothing. */
  predicate MarkList(s: string) {
    && (s == "" || |s| % 2 == 1)
    && forall i | 0 <= i < |s| :: s[i] == if i % 2 == 0 then '?' else ','
  }

  predicate IsList(op: string) {
    |op| >= 6 && op[..5] == " IN (" && op[|op| - 1] == ')' && MarkList(op[5..|op| - 1])
  }

  /** An operator, with its marks, applied to a column's value. */
  predicate OperatorMeans(op: string, cell: Value, args: seq<Value>) {
    if op == " >= ?" then |args| == 1 && LessEqual(args[0], cell)
    else if op == " <= ?" then |args| == 1 && LessEqual(cell, args[0])
    else if op == " = ?" then |args| == 1 && cell == args[0]
    else if op == " LIKE ?" then |args| == 1 && LikeValue(cell, args[0], None)
    else IsList(op) && cell in args
  }

  const ESCAPED_LIKE := " LIKE ? ESCAPE '\\'"

  /** A test: a column's name up to the first blank, and the operator after it. */
  predicate TestMeans(t: string, args: seq<Value>, e: Event) {
    var blank := IndexFrom(t, " ", 0);
    blank.Some? &&
    var name, op := t[..blank.value], t[blank.value..];
    if op == ESCAPED_LIKE then
      && |name| >= 7 && name[..6] == "lower(" && name[|name| - 1] == ')' && |args| == 1
      && var cell := CellNamed(name[6..|name| - 1], e);
         cell.Some? && LikeValue(Lowered(cell.value), args[0], Some('\\'))
    else
      var cell := CellNamed(name, e);
      cell.Some? && OperatorMeans(op, cell.value, args)
  }

  /** Each piece takes as many arguments as it has marks, the last piece the last. */
  predicate AnyMeans(tests: seq<string>, args: seq<Value>, e: Event) {
    tests != [] &&
    var last := tests[|tests| - 1];
    var n := |args| - Marks(last);
    n >= 0 && (AnyMeans(tests[..|tests| - 1], args[..n], e) || TestMeans(last, args[n..], e))
  }

  predicate PartMeans(p: string, args: seq<Value>, e: Event) {
    if |p| >= 2 && p[0] == '(' && p[|p| - 1] == ')' then AnyMeans(Split(p[1..|p| - 1], " OR "), args, e)
    else TestMeans(p, args, e)
  }

  predicate AllMeans(parts: seq<string>, args: seq<Value>, e: Event) {
    if parts == [] then args == [] else
      var last := parts[|parts| - 1];
      var n := |args| - Marks(last);
      n >= 0 && AllMeans(parts[..|parts| - 1], args[..n], e) && PartMeans(last, args[n..], e)
  }

  /** The statement selects the event.  The last argument belongs to the limit. */
  predicate Selects(text: string, args: seq<Value>, e: Event) {
    var order := IndexFrom(text, " ORDER BY ", 0);
    order.Some? && args != [] &&
    var head := text[..order.value];
    var where := IndexFrom(head, " WHERE ", 0);
    if where.None? then |args| == 1
    else AllMeans(Split(head[where.value + 7..], " AND "), args[..|args| - 1], e)
  }

  // ---- cutting undoes joining ----

  /** The m-th character of the separator occurs nowhere else in it. */
  predicate Marker(sep: string, m: nat) {
    m < |sep| && forall k | 0 <= k < |sep| && k != m :: sep[k] != sep[m]
  }

  lemma SeparatorFound(p: string, sep: string, m: nat, rest: string)
    requires Marker(sep, m) && sep[m] !in p
    ensures IndexFrom(p + sep + rest, sep, 0) == Some(|p|)
  {
    var s := p + sep + rest;
    assert s[|p|..|p| + |sep|] == sep;
    forall k: nat | k < |p|
      ensures !OccursAt(s, sep, k)
    {
      assert s[k + m] == if k + m < |p| then p[k + m] else sep[k + m - |p|];
      if k + |sep| <= |s| {
        assert s[k..k + |sep|][m] == s[k + m] != sep[m];
      }
    }
    FirstAt(s, sep, 0, |p|);
  }

  lemma NoSeparator(p: string, sep: string, m: nat)
    requires Marker(sep, m) && sep[m] !in p
    ensures IndexFrom(p, sep, 0) == None
  {
    forall k: nat | k + |sep| <= |p|
      ensures !OccursAt(p, sep, k)
    {
      assert p[k..k + |sep|][m] == p[k + m] != sep[m];
    }
  }

  lemma {:induction false} JoinCons(p: string, rest: seq<string>, sep: string)
    requires rest != []
    ensures Join([p] + rest, sep) == p + sep + Join(rest, sep)
  {
    var parts := [p] + rest;
    var n := |rest| - 1;
    assert parts[..|parts| - 1] == [p] + rest[..n];
    if n == 0 {
      assert [p] + rest[..0] == [p];
    } else {
      JoinCons(p, rest[..n], sep);
    }
  }

  predicate Without(parts: seq<string>, c: char) { forall i | 0 <= i < |parts| :: c !in parts[i] }

  lemma {:induction false} SplitUndoesJoin(parts: seq<string>, sep: string, m: nat)
    requires parts != [] && Marker(sep, m) && Without(parts, sep[m])
    ensures Split(Join(parts, sep), sep) == parts
  {
    if |parts| == 1 {
      assert sep[m] !in parts[0];
      NoSeparator(parts[0], sep, m);
    } else {
      var p, rest := parts[0], parts[1..];
      assert parts == [p] + rest && sep[m] !in parts[0];
      JoinCons(p, rest, sep);
      SeparatorFound(p, sep, m, Join(rest, sep));
      var s := p + sep + Join(rest, sep);
      assert s[..|p|] == p && s[|p| + |sep|..] == Join(rest, sep);
      SplitUndoesJoin(rest, sep, m);
    }
  }

  // ---- what the compiler writes is read as it was meant ----

  /** The letters that only keywords between tests have. */
  predicate Between(c: char) { c == 'D' || c == 'R' || c == 'W' || c == 'Y' }

  predicate Inner(s: string) { forall c | c in s :: !Between(c) }

  lemma InnerConcat(a: string, b: string)
    requires Inner(a) && Inner(b)
    ensures Inner(a + b)
  {}

  lemma NameReads(c: Column, e: Event)
    ensures CellNamed(Name(c), e) == Some(Cell(c, e))
  {}

  predicate LowerName(s: string) {
    forall i | 0 <= i < |s| :: 'a' <= s[i] <= 'z' || s[i] == '_'
  }

  lemma NameIsLower(c: Column)
    ensures Name(c) != "" && LowerName(Name(c))
  {}

  lemma NameIsPlain(c: Column)
    ensures Name(c) != "" && Name(c)[0] != '(' && ' ' !in Name(c) && Inner(Name(c))
  {
    NameIsLower(c);
    var name := Name(c);
    LowerIsPlain(name);
  }

  lemma LowerIsPlain(name: string)
    requires LowerName(name)
    ensures ' ' !in name && Inner(name) && (name != "" ==> name[0] != '(')
  {}

  lemma BlankFound(name: string, op: string)
    requires ' ' !in name && op != "" && op[0] == ' '
    ensures IndexFrom(name + op, " ", 0) == Some(|name|)
    ensures (name + op)[..|name|] == name && (name + op)[|name|..] == op
  {
    var s := name + op;
    assert s[|name|..|name| + 1] == " ";
    forall k: nat | k < |name|
      ensures !OccursAt(s, " ", k)
    {
      assert s[k..k + 1][0] == name[k] != ' ';
    }
    FirstAt(s, " ", 0, |name|);
  }

  lemma OperatorReads(c: Column, op: string, args: seq<Value>, e: Event)
    requires op != "" && op[0] == ' ' && op != ESCAPED_LIKE
    ensures TestMeans(Name(c) + op, args, e) <==> OperatorMeans(op, Cell(c, e), args)
  {
    NameIsPlain(c);
    NameReads(c, e);
    BlankFound(Name(c), op);
  }

  lemma LoweredHasItsBlank(c: Column)
    ensures var name := "lower(" + Name(c) + ")";
            && IndexFrom(LoweredText(c), " ", 0) == Some(|name|)
            && LoweredText(c)[..|name|] == name && LoweredText(c)[|name|..] == ESCAPED_LIKE
  {
    var name := "lower(" + Name(c) + ")";
    NameIsPlain(c);
    assert LoweredText(c) == name + ESCAPED_LIKE;
    assert ' ' !in "lower(" && ' ' !in ")";
    BlankFound(name, ESCAPED_LIKE);
  }

  lemma LoweredReads(c: Column, args: seq<Value>, e: Event)
    requires |args| == 1
    ensures TestMeans(LoweredText(c), args, e) <==> LikeValue(Lowered(Cell(c, e)), args[0], Some('\\'))
  {
    var name := "lower(" + Name(c) + ")";
    NameIsPlain(c);
    NameReads(c, e);
    LoweredHasItsBlank(c);
    assert name[..6] == "lower(" && name[6..|name| - 1] == Name(c) && name[|name| - 1] == ')';
  }

  lemma {:induction false} MarksAlternate(n: nat)
    ensures |Repeat("?,", n)| == 2 * n
    ensures forall i | 0 <= i < 2 * n :: Repeat("?,", n)[i] == if i % 2 == 0 then '?' else ','
  {
    if n > 0 {
      MarksAlternate(n - 1);
      assert "?,"[0] == '?' && "?,"[1] == ',';
    }
  }

  lemma PlaceholdersAreMarks(n: nat)
    ensures MarkList(Placeholders(n))
  {
    MarksAlternate(n);
    var r := Repeat("?,", n);
    if n > 0 {
      assert r[|r| - 1..] == ",";
    }
  }

  lemma ListReads(n: nat, cell: Value, args: seq<Value>)
    ensures var op := " IN (" + Placeholders(n) + ")";
            op[0] == ' ' && op != ESCAPED_LIKE && (OperatorMeans(op, cell, args) <==> cell in args)
  {
    var op := " IN (" + Placeholders(n) + ")";
    PlaceholdersAreMarks(n);
    assert op[1] == 'I' && op[..5] == " IN (" && op[5..|op| - 1] == Placeholders(n) && op[|op| - 1] == ')';
    assert ESCAPED_LIKE[1] == 'L' && " >= ?"[1] == '>' && " <= ?"[1] == '<' && " = ?"[1] == '=' && " LIKE ?"[1] == 'L';
  }

  lemma InReads(c: Column, n: nat, args: seq<Value>, e: Event)
    ensures TestMeans(Name(c) + " IN (" + Placeholders(n) + ")", args, e) <==> Cell(c, e) in args
  {
    var op := " IN (" + Placeholders(n) + ")";
    ListReads(n, Cell(c, e), args);
    OperatorReads(c, op, args, e);
    assert Name(c) + " IN (" + Placeholders(n) + ")" == Name(c) + op;
  }

  /** A test's text is read as the test. */
  lemma TestReads(t: Test, args: seq<Value>, e: Event)
    requires |args| == TestHoles(t)
    ensures TestMeans(TestText(t), args, e) <==> EvalTest(t, args, e)
  {
    match t
    case AtLeast(c) => OperatorReads(c, " >= ?", args, e);
    case AtMost(c) => OperatorReads(c, " <= ?", args, e);
    case In(c, n) => InReads(c, n, args, e);
    case LikePattern(c) => OperatorReads(c, " LIKE ?", args, e);
    case Equal(c) => OperatorReads(c, " = ?", args, e);
    case LoweredLike(c) => LoweredReads(c, args, e);
  }

  lemma {:induction false} TestsRead(ts: seq<Test>, args: seq<Value>, e: Event)
    requires |args| == TestsHoles(ts)
    ensures AnyMeans(TestTexts(ts), args, e) <==> EvalAnyTest(ts, args, e)
  {
    if ts != [] {
      var front, last := ts[..|ts| - 1], ts[|ts| - 1];
      var n := TestsHoles(front);
      TestsRead(front, args[..n], e);
      TestReads(last, args[n..], e);
      TestMarks(last);
      assert TestTexts(ts)[..|ts| - 1] == TestTexts(front);
    }
  }

  lemma TestIsInner(t: Test)
    ensures Inner(TestText(t)) && TestText(t) != "" && TestText(t)[0] != '('
  {
    NameIsPlain(t.col);
    var name := Name(t.col);
    match t
    case In(c, n) =>
      PlaceholdersAreMarks(n);
      assert Inner(Placeholders(n));
      InnerConcat(name, " IN (");
      InnerConcat(name + " IN (", Placeholders(n));
      InnerConcat(name + " IN (" + Placeholders(n), ")");
    case LoweredLike(c) =>
      assert Inner("lower(") && Inner(") LIKE ? ESCAPE '\\'");
      InnerConcat("lower(", name);
      InnerConcat("lower(" + name, ") LIKE ? ESCAPE '\\'");
    case _ =>
  }

  lemma {:induction false} TestsAreInner(ts: seq<Test>)
    ensures forall i | 0 <= i < |ts| :: Inner(TestTexts(ts)[i])
  {
    if ts != [] {
      TestsAreInner(ts[..|ts| - 1]);
      TestIsInner(ts[|ts| - 1]);
    }
  }

  lemma TestsSplit(ts: seq<Test>)
    requires ts != []
    ensures Split(Join(TestTexts(ts), " OR "), " OR ") == TestTexts(ts)
  {
    TestsAreInner(ts);
    assert " OR "[2] == 'R' && Marker(" OR ", 2);
    SplitUndoesJoin(TestTexts(ts), " OR ", 2);
  }

  /** A clause's text is read as the clause. */
  lemma ClauseReads(c: Clause, args: seq<Value>, e: Event)
    requires |args| == Holes(c)
    ensures PartMeans(ClauseText(c), args, e) <==> EvalClause(c, args, e)
  {
    match c
    case One(t) =>
      TestIsInner(t);
      TestReads(t, args, e);
    case Any(ts) =>
      var inner := Join(TestTexts(ts), " OR ");
      var p := "(" + inner + ")";
      assert p[0] == '(' && p[|p| - 1] == ')' && p[1..|p| - 1] == inner;
      if ts == [] {
        EmptyMeansNothing(args, e);
      } else {
        TestsSplit(ts);
        TestsRead(ts, args, e);
      }
  }

  lemma EmptyMeansNothing(args: seq<Value>, e: Event)
    ensures !AnyMeans(Split("", " OR "), args, e)
  {
    assert !TestMeans("", args, e);
    assert Split("", " OR ") == [""];
    assert [""][..0] == [] && Marks("") == 0;
  }

  /** The letters that only keywords between clauses have. */
  predicate Outer(s: string) { forall c | c in s :: c != 'D' && c != 'W' && c != 'Y' }

  lemma {:induction false} JoinIsOuter(parts: seq<string>, sep: string)
    requires Outer(sep) && forall i | 0 <= i < |parts| :: Outer(parts[i])
    ensures Outer(Join(parts, sep))
  {
    if |parts| > 1 {
      JoinIsOuter(parts[..|parts| - 1], sep);
    }
  }

  lemma ClauseIsOuter(c: Clause)
    ensures Outer(ClauseText(c))
  {
    match c
    case One(t) => TestIsInner(t);
    case Any(ts) =>
      TestsAreInner(ts);
      assert forall i | 0 <= i < |ts| :: Inner(TestTexts(ts)[i]) ==> Outer(TestTexts(ts)[i]);
      assert Outer(" OR ");
      JoinIsOuter(TestTexts(ts), " OR ");
  }

  lemma {:induction false} TextsAreOuter(bs: seq<Bound>)
    ensures |Texts(bs)| == |bs| && forall i | 0 <= i < |bs| :: Outer(Texts(bs)[i])
  {
    if bs != [] {
      TextsAreOuter(bs[..|bs| - 1]);
      ClauseIsOuter(bs[|bs| - 1].clause);
    }
  }

  /** The list of clause texts, with the arguments in a row, is read as every
      clause with its own arguments. */
  lemma {:induction false} TextsRead(bs: seq<Bound>, e: Event)
    requires WellBound(bs)
    ensures AllMeans(Texts(bs), Args(bs), e) <==> AllHold(bs, e)
  {
    if bs != [] {
      var front, last := bs[..|bs| - 1], bs[|bs| - 1];
      assert bs == front + [last];
      AllHoldSnoc(front, last, e);
      TextsRead(front, e);
      ClauseReads(last.clause, last.args, e);
      ClauseMarks(last.clause);
      assert Texts(bs)[..|Texts(bs)| - 1] == Texts(front);
      assert Args(bs)[..|Args(front)|] == Args(front) && Args(bs)[|Args(front)|..] == last.args;
    }
  }

  lemma WhereSplits(bs: seq<Bound>)
    requires bs != []
    ensures Split(Join(Texts(bs), " AND "), " AND ") == Texts(bs)
  {
    TextsAreOuter(bs);
    assert " AND "[3] == 'D' && Marker(" AND ", 3);
    SplitUndoesJoin(Texts(bs), " AND ", 3);
  }

  lemma WhereFound(head: string, where: string)
    requires 'W' !in head
    ensures IndexFrom(head + " WHERE " + where, " WHERE ", 0) == Some(|head|)
    ensures (head + " WHERE " + where)[|head| + 7..] == where
  {
    assert " WHERE "[1] == 'W' && Marker(" WHERE ", 1) && |" WHERE "| == 7;
    SeparatorFound(head, " WHERE ", 1, where);
  }

  lemma NoWhere(head: string)
    requires 'W' !in head
    ensures IndexFrom(head, " WHERE ", 0) == None
  {
    assert " WHERE "[1] == 'W' && Marker(" WHERE ", 1);
    NoSeparator(head, " WHERE ", 1);
  }

  lemma OrderFound(select: string, tail: string)
    requires 'Y' !in select
    ensures IndexFrom(select + " ORDER BY " + tail, " ORDER BY ", 0) == Some(|select|)
    ensures (select + " ORDER BY " + tail)[..|select|] == select
  {
    assert " ORDER BY "[8] == 'Y' && Marker(" ORDER BY ", 8);
    SeparatorFound(select, " ORDER BY ", 8, tail);
  }

  lemma NoYInWhere(bs: seq<Bound>)
    ensures 'Y' !in Join(Texts(bs), " AND ")
  {
    TextsAreOuter(bs);
    AbsentFromJoin(Texts(bs), " AND ", 'Y');
  }

  lemma {:induction false} AbsentFromJoin(parts: seq<string>, sep: string, c: char)
    requires c !in sep && Without(parts, c)
    ensures c !in Join(parts, sep)
  {
    if |parts| > 1 {
      AbsentFromJoin(parts[..|parts| - 1], sep, c);
      assert c !in parts[|parts| - 1];
    } else if |parts| == 1 {
      assert c !in parts[0];
    }
  }

  /** A statement of this shape selects what its clauses select together. */
  lemma StatementReads(head: string, bs: seq<Bound>, tail: string, limit: Value, e: Event)
    requires WellBound(bs) && 'W' !in head && 'Y' !in head
    ensures var select := if bs == [] then head else head + " WHERE " + Join(Texts(bs), " AND ");
            Selects(select + " ORDER BY " + tail, Args(bs) + [limit], e) <==> AllHold(bs, e)
  {
    var where := Join(Texts(bs), " AND ");
    var select := if bs == [] then head else head + " WHERE " + where;
    NoYInWhere(bs);
    assert 'Y' !in " WHERE ";
    assert 'Y' !in select;
    OrderFound(select, tail);
    if bs == [] {
      NoWhere(head);
    } else {
      WhereFound(head, where);
      WhereSplits(bs);
      TextsRead(bs, e);
      assert (Args(bs) + [limit])[..|Args(bs)|] == Args(bs);
    }
  }
}
