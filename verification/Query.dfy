/** Compiling a Filter or a list of search terms to SQL: the text with its
    positional arguments, and what it means.

    The text is built exactly as the code builds it.  Its meaning is given on the
    list of clauses the text spells out; each clause takes as many of the
    arguments as it has question marks, in order. */
module Query {
  import opened Text
  import opened Events
  import Like

  datatype Row = Row(id: int, ev: Event)

  datatype Value = Int(i: int) | Str(s: string)

  datatype Column =
    | Ts | Pid | Uid | Category | Action | Comm | Exe | Path | OldPath
    | LocalAddr | RemoteAddr | RemoteHost | ContainerId | CgroupPath

  function Name(c: Column): string {
    match c
    case Ts => "ts" case Pid => "pid" case Uid => "uid"
    case Category => "category" case Action => "action" case Comm => "comm" case Exe => "exe"
    case Path => "path" case OldPath => "old_path"
    case LocalAddr => "local_addr" case RemoteAddr => "remote_addr" case RemoteHost => "remote_host"
    case ContainerId => "container_id" case CgroupPath => "cgroup_path"
  }

  function Cell(c: Column, e: Event): Value {
    match c
    case Ts => Int(e.ts) case Pid => Int(e.pid) case Uid => Int(e.uid)
    case Category => Str(e.category) case Action => Str(e.action) case Comm => Str(e.comm) case Exe => Str(e.exe)
    case Path => Str(e.path) case OldPath => Str(e.oldPath)
    case LocalAddr => Str(e.localAddr) case RemoteAddr => Str(e.remoteAddr) case RemoteHost => Str(e.remoteHost)
    case ContainerId => Str(e.containerId) case CgroupPath => Str(e.cgroupPath)
  }

  datatype Test =
    | AtLeast(col: Column) | AtMost(col: Column) | In(col: Column, n: nat)
    | LikePattern(col: Column) | Equal(col: Column) | LoweredLike(col: Column)

  /** One member of the WHERE list: a test, or several joined by OR. */
  datatype Clause = One(test: Test) | Any(tests: seq<Test>)

  // ---- text ----

  /** strings.TrimSuffix(strings.Repeat("?,", n), ",") */
  function Placeholders(n: nat): string { TrimSuffix(Repeat("?,", n), ",") }

  function Repeat(s: string, n: nat): string { if n == 0 then "" else Repeat(s, n - 1) + s }

  function Join(parts: seq<string>, sep: string): string {
    if parts == [] then "" else if |parts| == 1 then parts[0]
    else Join(parts[..|parts| - 1], sep) + sep + parts[|parts| - 1]
  }

  function LoweredText(c: Column): string { "lower(" + Name(c) + ") LIKE ? ESCAPE '\\'" }

  function TestText(t: Test): string {
    match t
    case AtLeast(c) => Name(c) + " >= ?"
    case AtMost(c) => Name(c) + " <= ?"
    case In(c, n) => Name(c) + " IN (" + Placeholders(n) + ")"
    case LikePattern(c) => Name(c) + " LIKE ?"
    case Equal(c) => Name(c) + " = ?"
    case LoweredLike(c) => LoweredText(c)
  }

  function TestTexts(ts: seq<Test>): (r: seq<string>)
    ensures |r| == |ts|
  {
    if ts == [] then [] else TestTexts(ts[..|ts| - 1]) + [TestText(ts[|ts| - 1])]
  }

  function ClauseText(c: Clause): string {
    match c
    case One(t) => TestText(t)
    case Any(ts) => "(" + Join(TestTexts(ts), " OR ") + ")"
  }

  // ---- meaning ----

  function TestHoles(t: Test): nat { if t.In? then t.n else 1 }

  function TestsHoles(ts: seq<Test>): nat {
    if ts == [] then 0 else TestsHoles(ts[..|ts| - 1]) + TestHoles(ts[|ts| - 1])
  }

  function Holes(c: Clause): nat {
    match c case One(t) => TestHoles(t) case Any(ts) => TestsHoles(ts)
  }

  predicate LessEqual(a: Value, b: Value) { a.Int? && b.Int? && a.i <= b.i }

  predicate LikeValue(cell: Value, pattern: Value, escape: Option<char>) {
    cell.Str? && pattern.Str? && Like.Matches(pattern.s, cell.s, escape)
  }

  function Lowered(v: Value): Value { if v.Str? then Str(Like.FoldAll(v.s)) else v }

  predicate EvalTest(t: Test, args: seq<Value>, e: Event)
    requires |args| == TestHoles(t)
  {
    match t
    case AtLeast(c) => LessEqual(args[0], Cell(c, e))
    case AtMost(c) => LessEqual(Cell(c, e), args[0])
    case In(c, n) => Cell(c, e) in args
    case LikePattern(c) => LikeValue(Cell(c, e), args[0], None)
    case Equal(c) => Cell(c, e) == args[0]
    case LoweredLike(c) => LikeValue(Lowered(Cell(c, e)), args[0], Like.BACKSLASH)
  }

  predicate EvalAnyTest(ts: seq<Test>, args: seq<Value>, e: Event)
    requires |args| == TestsHoles(ts)
  {
    ts != [] &&
    var n := TestsHoles(ts[..|ts| - 1]);
    EvalAnyTest(ts[..|ts| - 1], args[..n], e) || EvalTest(ts[|ts| - 1], args[n..], e)
  }

  predicate EvalClause(c: Clause, args: seq<Value>, e: Event)
    requires |args| == Holes(c)
  {
    match c case One(t) => EvalTest(t, args, e) case Any(ts) => EvalAnyTest(ts, args, e)
  }

  function AllHoles(cs: seq<Clause>): nat {
    if cs == [] then 0 else AllHoles(cs[..|cs| - 1]) + Holes(cs[|cs| - 1])
  }

  /** The WHERE list: every clause holds, each reading the next of the arguments. */
  predicate EvalWhere(cs: seq<Clause>, args: seq<Value>, e: Event)
    requires |args| == AllHoles(cs)
  {
    cs == [] ||
    var n := AllHoles(cs[..|cs| - 1]);
    EvalWhere(cs[..|cs| - 1], args[..n], e) && EvalClause(cs[|cs| - 1], args[n..], e)
  }

  // ---- clauses with the arguments meant for them ----

  datatype Bound = Bound(clause: Clause, args: seq<Value>)

  /** The clause has as many arguments as holes, and holds of e with them. */
  predicate Holds(b: Bound, e: Event) { |b.args| == Holes(b.clause) && EvalClause(b.clause, b.args, e) }

  predicate WellBound(bs: seq<Bound>) { forall b | b in bs :: |b.args| == Holes(b.clause) }

  predicate AllHold(bs: seq<Bound>, e: Event) { forall b | b in bs :: Holds(b, e) }

  function Clauses(bs: seq<Bound>): seq<Clause> {
    if bs == [] then [] else Clauses(bs[..|bs| - 1]) + [bs[|bs| - 1].clause]
  }

  function Args(bs: seq<Bound>): seq<Value> {
    if bs == [] then [] else Args(bs[..|bs| - 1]) + bs[|bs| - 1].args
  }

  function Texts(bs: seq<Bound>): seq<string> {
    if bs == [] then [] else Texts(bs[..|bs| - 1]) + [ClauseText(bs[|bs| - 1].clause)]
  }

  lemma AllHoldSnoc(bs: seq<Bound>, b: Bound, e: Event)
    ensures AllHold(bs + [b], e) <==> AllHold(bs, e) && Holds(b, e)
    ensures WellBound(bs + [b]) <==> WellBound(bs) && |b.args| == Holes(b.clause)
  {
    assert forall x :: x in bs + [b] <==> x in bs || x == b;
  }

  lemma EvalSnoc(clauses: seq<Clause>, args: seq<Value>, b: Bound, e: Event)
    requires |args| == AllHoles(clauses) && |b.args| == Holes(b.clause)
    ensures AllHoles(clauses + [b.clause]) == |args + b.args|
    ensures EvalWhere(clauses + [b.clause], args + b.args, e) <==> EvalWhere(clauses, args, e) && Holds(b, e)
  {
    assert (clauses + [b.clause])[..|clauses|] == clauses;
    assert (args + b.args)[..|args|] == args && (args + b.args)[|args|..] == b.args;
  }

  /** Positional binding gives every clause its own arguments: there are as many
      holes as arguments, and the list holds iff each clause holds of its own. */
  lemma {:induction false} EachClauseGetsItsArgs(bs: seq<Bound>, e: Event)
    requires WellBound(bs)
    ensures |Args(bs)| == AllHoles(Clauses(bs))
    ensures EvalWhere(Clauses(bs), Args(bs), e) <==> AllHold(bs, e)
  {
    if bs != [] {
      var front, last := bs[..|bs| - 1], bs[|bs| - 1];
      assert bs == front + [last];
      AllHoldSnoc(front, last, e);
      EachClauseGetsItsArgs(front, e);
      EvalSnoc(Clauses(front), Args(front), last, e);
    }
  }

  // ---- the question marks in the text ----

  function Marks(s: string): nat {
    if s == "" then 0 else Marks(s[..|s| - 1]) + if s[|s| - 1] == '?' then 1 else 0
  }

  lemma {:induction false} MarksConcat(a: string, b: string)
    ensures Marks(a + b) == Marks(a) + Marks(b)
  {
    if b == "" {
      assert a + b == a;
    } else {
      assert (a + b)[..|a + b| - 1] == a + b[..|b| - 1];
      MarksConcat(a, b[..|b| - 1]);
    }
  }

  lemma {:induction false} NoMarks(s: string)
    requires '?' !in s
    ensures Marks(s) == 0
  {
    if s != "" { NoMarks(s[..|s| - 1]); }
  }

  lemma MarksAround(before: string, mid: string, after: string)
    requires '?' !in before && '?' !in after
    ensures Marks(before + mid + after) == Marks(mid)
  {
    NoMarks(before);
    NoMarks(after);
    MarksConcat(before + mid, after);
    MarksConcat(before, mid);
  }

  lemma {:induction false} PlaceholderMarks(n: nat)
    ensures Marks(Placeholders(n)) == n
  {
    RepeatMarks(n);
    if n > 0 {
      var r := Repeat("?,", n);
      assert r[|r| - 1..] == ",";
      assert r == Placeholders(n) + ",";
      MarksConcat(Placeholders(n), ",");
      NoMarks(",");
    }
  }

  lemma {:induction false} RepeatMarks(n: nat)
    ensures Marks(Repeat("?,", n)) == n
  {
    if n > 0 {
      RepeatMarks(n - 1);
      MarksConcat(Repeat("?,", n - 1), "?,");
      OneMark("?", ",");
    }
  }

  lemma OneMark(mark: string, after: string)
    requires mark == "?" && '?' !in after
    ensures Marks(mark + after) == 1
  {
    MarksConcat(mark, after);
    NoMarks(after);
    assert mark[..0] == "";
  }

  lemma NameMarks(c: Column)
    ensures '?' !in Name(c)
  {}

  lemma ComparisonMarks(c: Column, op: string, text: string)
    requires '?' !in op && text == op + "?"
    ensures Marks(Name(c) + text) == 1
  {
    NameMarks(c);
    NoMarks(Name(c) + op);
    MarksConcat(Name(c) + op, "?");
    assert Name(c) + text == (Name(c) + op) + "?";
    OneMark("?", "");
    assert "?" + "" == "?";
  }

  lemma InListMarks(c: Column, n: nat)
    ensures Marks(Name(c) + " IN (" + Placeholders(n) + ")") == n
  {
    NameMarks(c);
    PlaceholderMarks(n);
    MarksAround(Name(c) + " IN (", Placeholders(n), ")");
  }

  lemma LoweredMarks(c: Column)
    ensures Marks(LoweredText(c)) == 1
  {
    NameMarks(c);
    var before := "lower(" + Name(c) + ") LIKE ";
    assert '?' !in "lower(" && '?' !in ") LIKE ";
    MarksAround(before, "?", " ESCAPE '\\'");
    assert LoweredText(c) == before + "?" + " ESCAPE '\\'";
    OneMark("?", "");
    assert "?" + "" == "?";
  }

  lemma TestMarks(t: Test)
    ensures Marks(TestText(t)) == TestHoles(t)
  {
    match t
    case AtLeast(c) => ComparisonMarks(c, " >= ", " >= ?");
    case AtMost(c) => ComparisonMarks(c, " <= ", " <= ?");
    case In(c, n) => InListMarks(c, n);
    case LikePattern(c) => ComparisonMarks(c, " LIKE ", " LIKE ?");
    case Equal(c) => ComparisonMarks(c, " = ", " = ?");
    case LoweredLike(c) => LoweredMarks(c);
  }

  function SumMarks(parts: seq<string>): nat {
    if parts == [] then 0 else SumMarks(parts[..|parts| - 1]) + Marks(parts[|parts| - 1])
  }

  lemma {:induction false} JoinMarks(parts: seq<string>, sep: string)
    requires '?' !in sep
    ensures Marks(Join(parts, sep)) == SumMarks(parts)
  {
    if |parts| == 1 {
      assert parts[..0] == [];
    } else if parts != [] {
      var n := |parts| - 1;
      JoinMarks(parts[..n], sep);
      MarksConcat(Join(parts[..n], sep) + sep, parts[n]);
      MarksConcat(Join(parts[..n], sep), sep);
      NoMarks(sep);
    }
  }

  lemma {:induction false} TestsMarks(ts: seq<Test>)
    ensures SumMarks(TestTexts(ts)) == TestsHoles(ts)
  {
    if ts != [] {
      var n := |ts| - 1;
      TestsMarks(ts[..n]);
      TestMarks(ts[n]);
      assert (TestTexts(ts[..n]) + [TestText(ts[n])])[..n] == TestTexts(ts[..n]);
    }
  }

  lemma ClauseMarks(c: Clause)
    ensures Marks(ClauseText(c)) == Holes(c)
  {
    match c
    case One(t) => TestMarks(t);
    case Any(ts) =>
      TestsMarks(ts);
      JoinMarks(TestTexts(ts), " OR ");
      MarksAround("(", Join(TestTexts(ts), " OR "), ")");
  }

  /** The WHERE text has exactly one question mark for each argument. */
  lemma {:induction false} OneMarkPerArgument(bs: seq<Bound>)
    requires WellBound(bs)
    ensures Marks(Join(Texts(bs), " AND ")) == |Args(bs)|
  {
    TextsMarks(bs);
    JoinMarks(Texts(bs), " AND ");
  }

  lemma {:induction false} TextsMarks(bs: seq<Bound>)
    requires WellBound(bs)
    ensures SumMarks(Texts(bs)) == |Args(bs)|
  {
    if bs != [] {
      var n := |bs| - 1;
      assert forall b | b in bs[..n] :: b in bs;
      TextsMarks(bs[..n]);
      assert bs[n] in bs;
      ClauseMarks(bs[n].clause);
      var before := Texts(bs[..n]);
      assert (before + [ClauseText(bs[n].clause)])[..|before|] == before;
    }
  }
}
