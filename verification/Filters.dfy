/** Store.Query and Store.QueryText: compilation of a Filter and of search terms. */
module Filters {
  import opened Text
  import opened Events
  import opened Query
  import Like
  import SqlText

  /** Absent times and empty lists or patterns constrain nothing. */
  datatype Filter = Filter(
    from: Option<int>, to: Option<int>,
    pids: seq<int>, uids: seq<int>,
    categories: seq<string>, actions: seq<string>, comms: seq<string>,
    pathLike: string, exeLike: string, exactPath: string,
    orderAsc: bool, limit: int)

  predicate MatchesLike(text: string, pattern: string) { Like.Matches(pattern, text, None) }

  /** What a Filter asks of an event: AND across its fields, OR within one. */
  predicate Selects(f: Filter, e: Event) {
    && (f.from.Some? ==> f.from.value <= e.ts)
    && (f.to.Some? ==> e.ts <= f.to.value)
    && (f.pids != [] ==> e.pid in f.pids)
    && (f.uids != [] ==> e.uid in f.uids)
    && (f.categories != [] ==> e.category in f.categories)
    && (f.actions != [] ==> e.action in f.actions)
    && (f.comms != [] ==> e.comm in f.comms)
    && (f.pathLike != "" ==> MatchesLike(e.path, f.pathLike) || MatchesLike(e.oldPath, f.pathLike))
    && (f.exeLike != "" ==> MatchesLike(e.exe, f.exeLike))
    && (f.exactPath != "" ==> e.path == f.exactPath || e.oldPath == f.exactPath)
  }

  function Ints(xs: seq<int>): (r: seq<Value>)
    ensures |r| == |xs| && forall i | 0 <= i < |xs| :: r[i] == Int(xs[i])
  {
    seq(|xs|, i requires 0 <= i < |xs| => Int(xs[i]))
  }

  function Strs(xs: seq<string>): (r: seq<Value>)
    ensures |r| == |xs| && forall i | 0 <= i < |xs| :: r[i] == Str(xs[i])
  {
    seq(|xs|, i requires 0 <= i < |xs| => Str(xs[i]))
  }

  // ---- the clauses a Filter stands for ----

  function With(bs: seq<Bound>, cond: bool, b: Bound): seq<Bound> { if cond then bs + [b] else bs }

  function InInts(c: Column, xs: seq<int>): Bound { Bound(One(In(c, |xs|)), Ints(xs)) }

  function InStrs(c: Column, xs: seq<string>): Bound { Bound(One(In(c, |xs|)), Strs(xs)) }

  const PATH_LIKE := Any([LikePattern(Path), LikePattern(OldPath)])
  const PATH_EQUAL := Any([Equal(Path), Equal(OldPath)])

  function TimeBounds(f: Filter): seq<Bound> {
    var bs := With([], f.from.Some?, Bound(One(AtLeast(Ts)), if f.from.Some? then [Int(f.from.value)] else []));
    With(bs, f.to.Some?, Bound(One(AtMost(Ts)), if f.to.Some? then [Int(f.to.value)] else []))
  }

  function ListBounds(f: Filter): seq<Bound> {
    var pids := With(TimeBounds(f), f.pids != [], InInts(Pid, f.pids));
    var uids := With(pids, f.uids != [], InInts(Uid, f.uids));
    var categories := With(uids, f.categories != [], InStrs(Category, f.categories));
    var actions := With(categories, f.actions != [], InStrs(Action, f.actions));
    With(actions, f.comms != [], InStrs(Comm, f.comms))
  }

  function FilterBounds(f: Filter): seq<Bound> {
    var paths := With(ListBounds(f), f.pathLike != "", Bound(PATH_LIKE, [Str(f.pathLike), Str(f.pathLike)]));
    var exes := With(paths, f.exeLike != "", Bound(One(LikePattern(Exe)), [Str(f.exeLike)]));
    With(exes, f.exactPath != "", Bound(PATH_EQUAL, [Str(f.exactPath), Str(f.exactPath)]))
  }

  lemma WithHolds(bs: seq<Bound>, cond: bool, b: Bound, e: Event)
    ensures AllHold(With(bs, cond, b), e) <==> AllHold(bs, e) && (cond ==> Holds(b, e))
    ensures WellBound(With(bs, cond, b)) <==> WellBound(bs) && (cond ==> |b.args| == Holes(b.clause))
  {
    AllHoldSnoc(bs, b, e);
  }

  lemma InHolds(e: Event, c: Column, xs: seq<int>, x: int)
    requires Cell(c, e) == Int(x)
    ensures Holds(InInts(c, xs), e) <==> x in xs
  {
    if x in xs {
      var i :| 0 <= i < |xs| && xs[i] == x;
      assert Ints(xs)[i] == Int(x);
    }
  }

  lemma InStrHolds(e: Event, c: Column, xs: seq<string>, x: string)
    requires Cell(c, e) == Str(x)
    ensures Holds(InStrs(c, xs), e) <==> x in xs
  {
    if x in xs {
      var i :| 0 <= i < |xs| && xs[i] == x;
      assert Strs(xs)[i] == Str(x);
    }
  }

  lemma EitherHolds(a: Test, b: Test, va: Value, vb: Value, e: Event)
    requires !a.In? && !b.In?
    ensures Holds(Bound(Any([a, b]), [va, vb]), e) <==> EvalTest(a, [va], e) || EvalTest(b, [vb], e)
  {
    assert [a, b][..1] == [a] && [a][..0] == [];
    assert TestsHoles([a]) == 1 && TestsHoles([a, b]) == 2;
    assert [va, vb][..1] == [va] && [va, vb][1..] == [vb] && [va][0..] == [va];
    assert EvalAnyTest([a], [va], e) == EvalTest(a, [va], e);
  }

  lemma TimeBoundsMean(f: Filter, e: Event)
    ensures WellBound(TimeBounds(f))
    ensures AllHold(TimeBounds(f), e) <==>
            (f.from.Some? ==> f.from.value <= e.ts) && (f.to.Some? ==> e.ts <= f.to.value)
  {
    var from := Bound(One(AtLeast(Ts)), if f.from.Some? then [Int(f.from.value)] else []);
    var to := Bound(One(AtMost(Ts)), if f.to.Some? then [Int(f.to.value)] else []);
    WithHolds([], f.from.Some?, from, e);
    WithHolds(With([], f.from.Some?, from), f.to.Some?, to, e);
  }

  lemma ListBoundsMean(f: Filter, e: Event)
    ensures WellBound(ListBounds(f))
    ensures AllHold(ListBounds(f), e) <==>
            && AllHold(TimeBounds(f), e)
            && (f.pids != [] ==> e.pid in f.pids) && (f.uids != [] ==> e.uid in f.uids)
            && (f.categories != [] ==> e.category in f.categories)
            && (f.actions != [] ==> e.action in f.actions) && (f.comms != [] ==> e.comm in f.comms)
  {
    TimeBoundsMean(f, e);
    InHolds(e, Pid, f.pids, e.pid);
    InHolds(e, Uid, f.uids, e.uid);
    InStrHolds(e, Category, f.categories, e.category);
    InStrHolds(e, Action, f.actions, e.action);
    InStrHolds(e, Comm, f.comms, e.comm);
    var bs := TimeBounds(f);
    WithHolds(bs, f.pids != [], InInts(Pid, f.pids), e);
    bs := With(bs, f.pids != [], InInts(Pid, f.pids));
    WithHolds(bs, f.uids != [], InInts(Uid, f.uids), e);
    bs := With(bs, f.uids != [], InInts(Uid, f.uids));
    WithHolds(bs, f.categories != [], InStrs(Category, f.categories), e);
    bs := With(bs, f.categories != [], InStrs(Category, f.categories));
    WithHolds(bs, f.actions != [], InStrs(Action, f.actions), e);
    bs := With(bs, f.actions != [], InStrs(Action, f.actions));
    WithHolds(bs, f.comms != [], InStrs(Comm, f.comms), e);
  }

  lemma PathLikeHolds(p: string, e: Event)
    ensures Holds(Bound(PATH_LIKE, [Str(p), Str(p)]), e) <==> MatchesLike(e.path, p) || MatchesLike(e.oldPath, p)
  {
    EitherHolds(LikePattern(Path), LikePattern(OldPath), Str(p), Str(p), e);
  }

  lemma PathEqualHolds(p: string, e: Event)
    ensures Holds(Bound(PATH_EQUAL, [Str(p), Str(p)]), e) <==> e.path == p || e.oldPath == p
  {
    EitherHolds(Equal(Path), Equal(OldPath), Str(p), Str(p), e);
  }

  lemma ExeLikeHolds(p: string, e: Event)
    ensures Holds(Bound(One(LikePattern(Exe)), [Str(p)]), e) <==> MatchesLike(e.exe, p)
  {}

  lemma {:induction false} PatternBoundsMean(f: Filter, e: Event)
    ensures WellBound(FilterBounds(f)) <==> WellBound(ListBounds(f))
    ensures AllHold(FilterBounds(f), e) <==>
            && AllHold(ListBounds(f), e)
            && (f.pathLike != "" ==> MatchesLike(e.path, f.pathLike) || MatchesLike(e.oldPath, f.pathLike))
            && (f.exeLike != "" ==> MatchesLike(e.exe, f.exeLike))
            && (f.exactPath != "" ==> e.path == f.exactPath || e.oldPath == f.exactPath)
  {
    var like := Bound(PATH_LIKE, [Str(f.pathLike), Str(f.pathLike)]);
    var exe := Bound(One(LikePattern(Exe)), [Str(f.exeLike)]);
    var exact := Bound(PATH_EQUAL, [Str(f.exactPath), Str(f.exactPath)]);
    PathLikeHolds(f.pathLike, e);
    ExeLikeHolds(f.exeLike, e);
    PathEqualHolds(f.exactPath, e);
    assert |like.args| == Holes(like.clause) && |exact.args| == Holes(exact.clause) by {
      PairHoles(LikePattern(Path), LikePattern(OldPath));
      PairHoles(Equal(Path), Equal(OldPath));
    }
    var b0 := ListBounds(f);
    var b1 := With(b0, f.pathLike != "", like);
    var b2 := With(b1, f.exeLike != "", exe);
    WithHolds(b0, f.pathLike != "", like, e);
    WithHolds(b1, f.exeLike != "", exe, e);
    WithHolds(b2, f.exactPath != "", exact, e);
  }

  lemma PairHoles(a: Test, b: Test)
    requires !a.In? && !b.In?
    ensures Holes(Any([a, b])) == 2
  {
    assert [a, b][..1] == [a] && [a][..0] == [];
    assert TestsHoles([a]) == 1;
  }

  lemma FilterBoundsMean(f: Filter, e: Event)
    ensures WellBound(FilterBounds(f))
    ensures AllHold(FilterBounds(f), e) <==> Selects(f, e)
  {
    TimeBoundsMean(f, e);
    ListBoundsMean(f, e);
    PatternBoundsMean(f, e);
  }

  /** The compiled WHERE list with its positional arguments selects exactly what
      the Filter asks for, and every question mark in its text has its argument. */
  lemma {:induction false} CompilationKeepsMeaning(f: Filter, e: Event)
    ensures var bs := FilterBounds(f);
            && |Args(bs)| == AllHoles(Clauses(bs)) == Marks(Join(Texts(bs), " AND "))
            && (EvalWhere(Clauses(bs), Args(bs), e) <==> Selects(f, e))
  {
    FilterBoundsMean(f, e);
    EachClauseGetsItsArgs(FilterBounds(f), e);
    OneMarkPerArgument(FilterBounds(f));
  }

  // ---- the compiler ----

  /** The columns of an event, in the order in which a row is read back. */
  const EVENT_COLUMN_LIST: seq<string> :=
    ["id", "ts", "category", "action", "pid", "ppid", "uid", "comm", "exe", "container_id", "cgroup_path",
     "path", "old_path", "local_addr", "local_port", "remote_addr", "remote_port", "remote_host",
     "target_pid", "exit_code", "dropped_before", "metadata", "raw"]

  function EventColumns(): string { Join(EVENT_COLUMN_LIST, ", ") }

  function SelectEvents(): string { "SELECT " + EventColumns() + " FROM events" }

  function Select(bs: seq<Bound>): string {
    if bs == [] then SelectEvents() else SelectEvents() + " WHERE " + Join(Texts(bs), " AND ")
  }

  lemma ColumnsAreLower()
    ensures forall i | 0 <= i < |EVENT_COLUMN_LIST| :: SqlText.LowerName(EVENT_COLUMN_LIST[i])
  {}

  lemma SelectIsPlain()
    ensures 'W' !in SelectEvents() && 'Y' !in SelectEvents()
  {
    ColumnsAreLower();
    SqlText.AbsentFromJoin(EVENT_COLUMN_LIST, ", ", 'W');
    SqlText.AbsentFromJoin(EVENT_COLUMN_LIST, ", ", 'Y');
  }

  /** What a statement made of these clauses selects, read from its text. */
  lemma SelectReads(bs: seq<Bound>, order: string, tail: string, limit: Value, e: Event)
    requires WellBound(bs) && order == " ORDER BY " + tail
    ensures SqlText.Selects(Select(bs) + order, Args(bs) + [limit], e) <==> AllHold(bs, e)
  {
    SelectIsPlain();
    SqlText.StatementReads(SelectEvents(), bs, tail, limit, e);
    assert Select(bs) + order == Select(bs) + " ORDER BY " + tail;
  }

  const OLDEST_FIRST := " ORDER BY ts ASC, id ASC LIMIT ?"
  const NEWEST_FIRST := " ORDER BY ts DESC, id DESC LIMIT ?"

  lemma OldestFirstOrders()
    ensures |OLDEST_FIRST| > 10 && OLDEST_FIRST[..10] == " ORDER BY "
  {}

  lemma NewestFirstOrders()
    ensures |NEWEST_FIRST| > 10 && NEWEST_FIRST[..10] == " ORDER BY "
  {}

  lemma OrderBy(order: string)
    requires order == OLDEST_FIRST || order == NEWEST_FIRST
    ensures |order| > 10 && order == " ORDER BY " + order[10..]
  {
    OldestFirstOrders();
    NewestFirstOrders();
    assert order == order[..10] + order[10..];
  }

  /** The text a Filter is compiled to selects what the Filter asks for. */
  predicate Answers(f: Filter, text: string, args: seq<Value>, e: Event) {
    SqlText.Selects(text, args, e) == Selects(f, e)
  }

  lemma FilterReads(f: Filter, order: string, limit: Value)
    requires order == OLDEST_FIRST || order == NEWEST_FIRST
    ensures forall e: Event :: Answers(f, Select(FilterBounds(f)) + order, Args(FilterBounds(f)) + [limit], e)
  {
    OrderBy(order);
    forall e: Event
      ensures Answers(f, Select(FilterBounds(f)) + order, Args(FilterBounds(f)) + [limit], e)
    {
      FilterBoundsMean(f, e);
      SelectReads(FilterBounds(f), order, order[10..], limit, e);
    }
  }

  datatype FilterError = InvertedRange | NegativeLimit

  datatype Compiled = Refused(error: FilterError) | Prepared(text: string, args: seq<Value>)

  predicate Inverted(f: Filter) { f.from.Some? && f.to.Some? && f.from.value > f.to.value }

  function LimitOr(limit: int, default: nat): nat { if limit <= 0 then default else limit }

  lemma Append(bs: seq<Bound>, b: Bound)
    ensures Texts(bs + [b]) == Texts(bs) + [ClauseText(b.clause)]
    ensures Args(bs + [b]) == Args(bs) + b.args
  {
    assert (bs + [b])[..|bs|] == bs;
  }

  method AppendInts(args: seq<Value>, xs: seq<int>) returns (r: seq<Value>)
    ensures r == args + Ints(xs)
  {
    r := args;
    for i := 0 to |xs|
      invariant r == args + Ints(xs)[..i]
    {
      r := r + [Int(xs[i])];
    }
  }

  method AppendStrs(args: seq<Value>, xs: seq<string>) returns (r: seq<Value>)
    ensures r == args + Strs(xs)
  {
    r := args;
    for i := 0 to |xs|
      invariant r == args + Strs(xs)[..i]
    {
      r := r + [Str(xs[i])];
    }
  }

  method CompileTimes(f: Filter) returns (where: seq<string>, args: seq<Value>)
    ensures where == Texts(TimeBounds(f)) && args == Args(TimeBounds(f))
  {
    where, args := [], [];
    ghost var bs: seq<Bound> := [];
    if f.from.Some? {
      Append(bs, Bound(One(AtLeast(Ts)), [Int(f.from.value)]));
      bs := bs + [Bound(One(AtLeast(Ts)), [Int(f.from.value)])];
      assert "ts" + " >= ?" == "ts >= ?";
      where := where + ["ts >= ?"];
      args := args + [Int(f.from.value)];
    }
    if f.to.Some? {
      Append(bs, Bound(One(AtMost(Ts)), [Int(f.to.value)]));
      assert "ts" + " <= ?" == "ts <= ?";
      where := where + ["ts <= ?"];
      args := args + [Int(f.to.value)];
    }
  }

  predicate InPrefix(c: Column, prefix: string) { prefix == Name(c) + " IN (" }

  lemma InPrefixes()
    ensures InPrefix(Pid, "pid IN (") && InPrefix(Uid, "uid IN (")
    ensures InPrefix(Category, "category IN (") && InPrefix(Action, "action IN (") && InPrefix(Comm, "comm IN (")
  {
    assert "pid" + " IN (" == "pid IN (";
    assert "uid" + " IN (" == "uid IN (";
    assert "category" + " IN (" == "category IN (";
    assert "action" + " IN (" == "action IN (";
    assert "comm" + " IN (" == "comm IN (";
  }

  /** One IN list; nothing for an empty one. */
  method AddIntList(where0: seq<string>, args0: seq<Value>, prefix: string, xs: seq<int>,
                    ghost c: Column, ghost bs: seq<Bound>)
    returns (where: seq<string>, args: seq<Value>)
    requires where0 == Texts(bs) && args0 == Args(bs) && InPrefix(c, prefix)
    ensures where == Texts(With(bs, xs != [], InInts(c, xs)))
    ensures args == Args(With(bs, xs != [], InInts(c, xs)))
  {
    where, args := where0, args0;
    if |xs| > 0 {
      Append(bs, InInts(c, xs));
      where := where + [prefix + Placeholders(|xs|) + ")"];
      args := AppendInts(args, xs);
    }
  }

  method AddStringList(where0: seq<string>, args0: seq<Value>, prefix: string, xs: seq<string>,
                       ghost c: Column, ghost bs: seq<Bound>)
    returns (where: seq<string>, args: seq<Value>)
    requires where0 == Texts(bs) && args0 == Args(bs) && InPrefix(c, prefix)
    ensures where == Texts(With(bs, xs != [], InStrs(c, xs)))
    ensures args == Args(With(bs, xs != [], InStrs(c, xs)))
  {
    where, args := where0, args0;
    if |xs| > 0 {
      Append(bs, InStrs(c, xs));
      where := where + [prefix + Placeholders(|xs|) + ")"];
      args := AppendStrs(args, xs);
    }
  }

  method CompileLists(f: Filter, where0: seq<string>, args0: seq<Value>) returns (where: seq<string>, args: seq<Value>)
    requires where0 == Texts(TimeBounds(f)) && args0 == Args(TimeBounds(f))
    ensures where == Texts(ListBounds(f)) && args == Args(ListBounds(f))
  {
    InPrefixes();
    ghost var bs := TimeBounds(f);
    where, args := AddIntList(where0, args0, "pid IN (", f.pids, Pid, bs);
    bs := With(bs, f.pids != [], InInts(Pid, f.pids));
    where, args := AddIntList(where, args, "uid IN (", f.uids, Uid, bs);
    bs := With(bs, f.uids != [], InInts(Uid, f.uids));
    where, args := AddStringList(where, args, "category IN (", f.categories, Category, bs);
    bs := With(bs, f.categories != [], InStrs(Category, f.categories));
    where, args := AddStringList(where, args, "action IN (", f.actions, Action, bs);
    bs := With(bs, f.actions != [], InStrs(Action, f.actions));
    where, args := AddStringList(where, args, "comm IN (", f.comms, Comm, bs);
  }

  function Either(a: string, b: string): string { "(" + (a + " OR " + b) + ")" }

  lemma PairText(a: Test, b: Test)
    ensures ClauseText(Any([a, b])) == Either(TestText(a), TestText(b))
  {
    var texts := [TestText(a), TestText(b)];
    assert [a, b][..1] == [a] && [a][..0] == [];
    assert TestTexts([a]) == [TestText(a)];
    assert TestTexts([a, b]) == texts;
    assert texts[..1] == [TestText(a)];
    assert Join(texts, " OR ") == TestText(a) + " OR " + TestText(b);
  }

  /** Store.Query, up to running the statement: refuses an inverted range or a
      negative limit, and otherwise prepares a text and its arguments. */
  method CompileFilter(f: Filter) returns (r: Compiled)
    ensures r == Refused(InvertedRange) <==> Inverted(f)
    ensures r == Refused(NegativeLimit) <==> !Inverted(f) && f.limit < 0
    ensures r.Prepared? ==>
              var bs := FilterBounds(f);
              && r.text == Select(bs) + (if f.orderAsc then " ORDER BY ts ASC, id ASC LIMIT ?"
                                         else " ORDER BY ts DESC, id DESC LIMIT ?")
              && r.args == Args(bs) + [Int(if f.limit == 0 then 200 else f.limit)]
    ensures r.Prepared? ==> forall e: Event :: Answers(f, r.text, r.args, e)
  {
    if f.from.Some? && f.to.Some? && f.from.value > f.to.value {
      return Refused(InvertedRange);
    }
    if f.limit < 0 {
      return Refused(NegativeLimit);
    }
    var limit := f.limit;
    if limit <= 0 {
      limit := 200;
    }
    var where, args := CompileTimes(f);
    where, args := CompileLists(f, where, args);
    where, args := CompilePatterns(f, where, args);
    var query := "SELECT " + EventColumns() + " FROM events";
    TextsLength(FilterBounds(f));
    FilterReads(f, if f.orderAsc then OLDEST_FIRST else NEWEST_FIRST, Int(limit));
    if |where| > 0 {
      query := query + " WHERE " + Join(where, " AND ");
    }
    if f.orderAsc {
      query := query + " ORDER BY ts ASC, id ASC LIMIT ?";
    } else {
      query := query + " ORDER BY ts DESC, id DESC LIMIT ?";
    }
    return Prepared(query, args + [Int(limit)]);
  }

  lemma {:induction false} TextsLength(bs: seq<Bound>)
    ensures |Texts(bs)| == |bs|
  {
    if bs != [] { TextsLength(bs[..|bs| - 1]); }
  }

  lemma LikeText()
    ensures ClauseText(PATH_LIKE) == Either("path LIKE ?", "old_path LIKE ?")
  {
    PairText(LikePattern(Path), LikePattern(OldPath));
    assert "path" + " LIKE ?" == "path LIKE ?";
    assert "old_path" + " LIKE ?" == "old_path LIKE ?";
  }

  lemma EqualText()
    ensures ClauseText(PATH_EQUAL) == Either("path = ?", "old_path = ?")
  {
    PairText(Equal(Path), Equal(OldPath));
    assert "path" + " = ?" == "path = ?";
    assert "old_path" + " = ?" == "old_path = ?";
  }

  lemma ExeText()
    ensures ClauseText(One(LikePattern(Exe))) == "exe LIKE ?"
  {
    assert "exe" + " LIKE ?" == "exe LIKE ?";
  }

  method CompilePatterns(f: Filter, where0: seq<string>, args0: seq<Value>)
    returns (where: seq<string>, args: seq<Value>)
    requires where0 == Texts(ListBounds(f)) && args0 == Args(ListBounds(f))
    ensures where == Texts(FilterBounds(f)) && args == Args(FilterBounds(f))
  {
    where, args := where0, args0;
    ghost var bs := ListBounds(f);
    LikeText();
    ExeText();
    EqualText();
    if f.pathLike != "" {
      Append(bs, Bound(PATH_LIKE, [Str(f.pathLike), Str(f.pathLike)]));
      bs := bs + [Bound(PATH_LIKE, [Str(f.pathLike), Str(f.pathLike)])];
      where := where + [Either("path LIKE ?", "old_path LIKE ?")];
      args := args + [Str(f.pathLike), Str(f.pathLike)];
    }
    if f.exeLike != "" {
      Append(bs, Bound(One(LikePattern(Exe)), [Str(f.exeLike)]));
      bs := bs + [Bound(One(LikePattern(Exe)), [Str(f.exeLike)])];
      where := where + ["exe LIKE ?"];
      args := args + [Str(f.exeLike)];
    }
    if f.exactPath != "" {
      Append(bs, Bound(PATH_EQUAL, [Str(f.exactPath), Str(f.exactPath)]));
      where := where + [Either("path = ?", "old_path = ?")];
      args := args + [Str(f.exactPath), Str(f.exactPath)];
    }
  }
}
