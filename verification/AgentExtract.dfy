/** ExtractSQL: the statement in an agent's output. */
module AgentExtract {
  import opened Text
  import opened SqlLexer
  import opened AgentScanner

  /** unicode.ToLower, as far as its result can be ASCII. */
  function LowerChar(c: char): char {
    if 'A' <= c <= 'Z' then c - 'A' + 'a'
    else if c == '\U{0130}' then 'i'
    else if c == '\U{212A}' then 'k'
    else c
  }

  function Lower(s: string): string {
    seq(|s|, i requires 0 <= i < |s| => LowerChar(s[i]))
  }

  const FENCE := "```"

  // ---- what an output may look like ----

  /** No fence in it, and none begun at its end. */
  predicate NoFence(t: string) { !Occurs(t, FENCE) && (t != "" ==> t[|t| - 1] != '`') }

  predicate IsTag(tag: string) { tag == "" || tag == "sql" || tag == "sqlite" }

  /** s has a first fence, with such a tag, closed after body. */
  predicate FencedAs(s: string, pre: string, tag: string, body: string, post: string) {
    && s == pre + FENCE + tag + "\n" + body + FENCE + post
    && NoFence(pre) && NoFence(body) && IsTag(tag)
  }

  /** t is the text in which a statement is looked for. */
  ghost predicate Shows(out: string, t: string) {
    || (!Occurs(out, FENCE) && t == TrimSpace(out))
    || exists pre, tag, body, post :: FencedAs(out, pre, tag, body, post) && t == TrimSpace(body)
  }

  /** A statement with nothing around it that extraction would take away. */
  predicate Plain(q: string) {
    q != "" && TrimSpace(q) == q && q[|q| - 1] != ';' && q[|q| - 1] != '`'
  }

  /** w is the statement, perhaps with a terminator or with a fence that was never opened. */
  predicate Wraps(w: string, q: string) {
    Plain(q) && (w == q || w == q + ";" || w == q + FENCE)
  }

  // ---- fences ----

  lemma FenceFound(s: string, start: nat, at: nat)
    requires start <= at && at + 3 <= |s| && s[at..at + 3] == FENCE && NoFence(s[start..at])
    ensures IndexFrom(s, FENCE, start) == Some(at)
  {
    var before := s[start..at];
    forall k: nat | start <= k < at
      ensures !OccursAt(s, FENCE, k)
    {
      NoFenceHere(s, start, at, k);
    }
    FirstAt(s, FENCE, start, at);
  }

  lemma FenceByCharacters(s: string, k: nat)
    requires k + 3 <= |s|
    ensures OccursAt(s, FENCE, k) <==> s[k] == '`' && s[k + 1] == '`' && s[k + 2] == '`'
  {
    var piece := s[k..k + 3];
    assert piece[0] == s[k] && piece[1] == s[k + 1] && piece[2] == s[k + 2];
    assert piece == FENCE <==> piece[0] == FENCE[0] && piece[1] == FENCE[1] && piece[2] == FENCE[2];
  }

  lemma NoFenceHere(s: string, start: nat, at: nat, k: nat)
    requires start <= k < at && at + 3 <= |s| && NoFence(s[start..at])
    ensures !OccursAt(s, FENCE, k)
  {
    var before, j := s[start..at], k - start;
    FenceByCharacters(s, k);
    if k + 3 <= at {
      FenceByCharacters(before, j);
      assert before[j] == s[k] && before[j + 1] == s[k + 1] && before[j + 2] == s[k + 2];
      assert !OccursAt(before, FENCE, j);
    } else {
      assert s[at - 1] == before[|before| - 1];
    }
  }

  lemma NewlineFound(s: string, start: nat, at: nat)
    requires start <= at < |s| && s[at] == '\n' && '\n' !in s[start..at]
    ensures IndexFrom(s, "\n", start) == Some(at)
  {
    assert s[at..at + 1] == "\n";
    forall k: nat | start <= k < at
      ensures !OccursAt(s, "\n", k)
    {
      assert s[k..k + 1][0] == s[k] == s[start..at][k - start];
    }
    FirstAt(s, "\n", start, at);
  }

  lemma TagIsOneLine(tag: string)
    requires IsTag(tag)
    ensures '\n' !in tag
  {}

  lemma TagIsItself(tag: string)
    requires IsTag(tag)
    ensures Lower(TrimSpace(tag)) == tag
  {
    TagIsTrimmed(tag);
    forall i | 0 <= i < |tag|
      ensures Lower(tag)[i] == tag[i]
    {
      assert 'a' <= tag[i] <= 'z';
    }
  }

  lemma TagIsTrimmed(tag: string)
    requires IsTag(tag)
    ensures TrimSpace(tag) == tag
  {
    if tag != "" {
      assert tag[0] == 's' && (tag[|tag| - 1] == 'l' || tag[|tag| - 1] == 'e');
      assert TrimLeft(tag) == tag;
    }
  }

  /** Where the pieces of such a text are. */
  lemma PiecesIn(s: string, pre: string, tag: string, body: string, post: string)
    requires FencedAs(s, pre, tag, body, post)
    ensures var start := |pre| + 3;
            var inner := start + |tag| + 1;
            && inner + |body| + 3 <= |s|
            && s[..|pre|] == pre && s[|pre|..start] == FENCE
            && s[start..start + |tag|] == tag && s[start + |tag|] == '\n'
            && s[inner..inner + |body|] == body && s[inner + |body|..inner + |body| + 3] == FENCE
  {
    var a := pre + FENCE;
    var b := a + tag + "\n";
    var c := b + body;
    assert c + FENCE <= s;
    PieceIn(c, FENCE, s);
    PieceIn(b, body, s);
    PieceIn(a + tag, "\n", s);
    PieceIn(a, tag, s);
    PieceIn(pre, FENCE, s);
    assert s[|a + tag|] == s[|a + tag|..|a + tag| + 1][0];
  }

  /** Where the text of a fence begins that was opened just before start: after
      its tag line, if it has one. */
  function BodyStart(s: string, start: nat): (i: nat)
    requires start <= |s|
    ensures start <= i <= |s|
  {
    var newline := IndexFrom(s, "\n", start);
    if newline.Some? && IsTag(Lower(TrimSpace(s[start..newline.value]))) then newline.value + 1 else start
  }

  /** What the first closed fence holds, without its language tag; None if there
      is none. */
  function Inside(s: string): Option<string> {
    var open := IndexFrom(s, FENCE, 0);
    if open.None? then None else InsideFrom(s, BodyStart(s, open.value + 3))
  }

  function InsideFrom(s: string, inner: nat): Option<string>
    requires inner <= |s|
  {
    var close := IndexFrom(s, FENCE, inner);
    if close.None? then None else Some(s[inner..close.value])
  }

  lemma TagLineSkipped(s: string, start: nat, tag: string)
    requires IsTag(tag) && start + |tag| < |s| && s[start..start + |tag|] == tag && s[start + |tag|] == '\n'
    ensures BodyStart(s, start) == start + |tag| + 1
  {
    TagIsOneLine(tag);
    TagIsItself(tag);
    NewlineFound(s, start, start + |tag|);
  }

  lemma BodyFound(s: string, inner: nat, body: string)
    requires inner + |body| + 3 <= |s| && s[inner..inner + |body|] == body
    requires NoFence(body) && s[inner + |body|..inner + |body| + 3] == FENCE
    ensures InsideFrom(s, inner) == Some(body)
  {
    FenceFound(s, inner, inner + |body|);
  }

  lemma InsideBySteps(s: string, open: nat, inner: nat, body: string)
    requires open + 3 <= inner <= |s|
    requires IndexFrom(s, FENCE, 0) == Some(open) && BodyStart(s, open + 3) == inner
    requires InsideFrom(s, inner) == Some(body)
    ensures Inside(s) == Some(body)
  {}

  lemma InsideIsBody(s: string, pre: string, tag: string, body: string, post: string)
    requires FencedAs(s, pre, tag, body, post)
    ensures IndexFrom(s, FENCE, 0) == Some(|pre|) && Inside(s) == Some(body)
  {
    var start := |pre| + 3;
    var inner := start + |tag| + 1;
    PiecesIn(s, pre, tag, body, post);
    assert IndexFrom(s, FENCE, 0) == Some(|pre|) by {
      assert s[0..|pre|] == pre;
      FenceFound(s, 0, |pre|);
    }
    assert BodyStart(s, start) == inner by { TagLineSkipped(s, start, tag); }
    assert InsideFrom(s, inner) == Some(body) by { BodyFound(s, inner, body); }
    InsideBySteps(s, |pre|, inner, body);
  }

  method SkipTag(s: string, start: nat) returns (i: nat)
    requires start <= |s|
    ensures i == BodyStart(s, start)
  {
    i := start;
    var newline := IndexFrom(s, "\n", start);
    if newline.Some? {
      var tag := Lower(TrimSpace(s[start..newline.value]));
      if tag == "" || tag == "sql" || tag == "sqlite" {
        i := newline.value + 1;
      }
    }
  }

  /** The first closed markdown fence in s, without its language tag; all of s
      when there is none. */
  method Unfence(s: string) returns (r: string)
    ensures r == match Inside(s) case Some(body) => TrimSpace(body) case None => s
  {
    r := s;
    var open := IndexFrom(s, FENCE, 0);
    if open.Some? {
      var start := SkipTag(s, open.value + 3);
      var close := IndexFrom(s, FENCE, start);
      if close.Some? {
        r := TrimSpace(s[start..close.value]);
      }
    }
  }

  lemma InsideOccurs(s: string)
    ensures Inside(s).Some? ==> Occurs(s, Inside(s).value)
  {
    var open := IndexFrom(s, FENCE, 0);
    if open.Some? {
      var inner := BodyStart(s, open.value + 3);
      if InsideFrom(s, inner).Some? {
        assert OccursAt(s, InsideFrom(s, inner).value, inner);
      }
    }
  }

  lemma TrimmedIsFencedAs(s: string, pre: string, tag: string, body: string, post: string)
    requires FencedAs(s, pre, tag, body, post)
    ensures FencedAs(TrimSpace(s), TrimLeft(pre), tag, body, TrimRight(post))
  {
    var x := FENCE + tag + "\n" + body + FENCE;
    Regroup(pre, tag, body, post);
    Regroup(TrimLeft(pre), tag, body, TrimRight(post));
    assert x[0] == '`' == x[|x| - 1];
    TrimAround(pre, x, post);
    TrimLeftHasNoFence(pre);
  }

  lemma Regroup(pre: string, tag: string, body: string, post: string)
    ensures pre + FENCE + tag + "\n" + body + FENCE + post == pre + (FENCE + tag + "\n" + body + FENCE) + post
  {
    assert pre + (FENCE + tag + "\n" + body + FENCE) == pre + (FENCE + tag + "\n" + body) + FENCE;
    assert pre + (FENCE + tag + "\n" + body) == pre + (FENCE + tag + "\n") + body;
    assert pre + (FENCE + tag + "\n") == pre + (FENCE + tag) + "\n";
    assert pre + (FENCE + tag) == pre + FENCE + tag;
  }

  lemma TrimLeftHasNoFence(pre: string)
    requires NoFence(pre)
    ensures NoFence(TrimLeft(pre))
  {
    var shown := TrimLeft(pre);
    assert OccursAt(pre, shown, SkipSpaces(pre, 0));
    if Occurs(shown, FENCE) {
      OccursTrans(FENCE, shown, pre);
    }
  }

  /** The text looked at, for an output that shows it. */
  lemma ShownIsFound(out: string, t: string)
    requires Shows(out, t)
    ensures t == match Inside(TrimSpace(out)) case Some(body) => TrimSpace(body) case None => TrimSpace(out)
  {
    if !Occurs(out, FENCE) {
      TrimmedHasNoFence(out);
      if exists pre, tag, body, post :: FencedAs(out, pre, tag, body, post) && t == TrimSpace(body) {
        var pre, tag, body, post :| FencedAs(out, pre, tag, body, post) && t == TrimSpace(body);
        FencedHasFence(out, pre, tag, body, post);
      }
    } else {
      var pre, tag, body, post :| FencedAs(out, pre, tag, body, post) && t == TrimSpace(body);
      TrimmedIsFencedAs(out, pre, tag, body, post);
      InsideIsBody(TrimSpace(out), TrimLeft(pre), tag, body, TrimRight(post));
    }
  }

  lemma FencedHasFence(s: string, pre: string, tag: string, body: string, post: string)
    requires FencedAs(s, pre, tag, body, post)
    ensures Occurs(s, FENCE)
  {
    InsideIsBody(s, pre, tag, body, post);
    assert OccursAt(s, FENCE, |pre|);
  }

  lemma TrimmedHasNoFence(out: string)
    requires !Occurs(out, FENCE)
    ensures Inside(TrimSpace(out)) == None
  {
    var s := TrimSpace(out);
    TrimSpaceKeeps(out);
    var open := IndexFrom(s, FENCE, 0);
    if open.Some? {
      assert OccursAt(s, FENCE, open.value);
      OccursTrans(FENCE, s, out);
    }
  }

  lemma UnfencedOccurs(out: string)
    ensures Occurs(out, match Inside(TrimSpace(out)) case Some(body) => TrimSpace(body) case None => TrimSpace(out))
  {
    var shown := TrimSpace(out);
    TrimSpaceKeeps(out);
    InsideOccurs(shown);
    if Inside(shown).Some? {
      OccursTrans(Inside(shown).value, shown, out);
      TrimOccurs(out, Inside(shown).value);
    }
  }

  method TrimAndUnfence(out: string) returns (s: string)
    ensures Occurs(out, s)
    ensures forall t | Shows(out, t) :: s == t
  {
    var shown := TrimSpace(out);
    s := Unfence(shown);
    UnfencedOccurs(out);
    forall t | Shows(out, t)
      ensures s == t
    {
      ShownIsFound(out, t);
    }
  }

  // ---- what stands around a statement ----

  lemma PlainKeepsItsEnd(q: string)
    requires Plain(q)
    ensures TrimSuffix(q, FENCE) == q && TrimSuffix(q, ";") == q
  {
    assert q[|q| - 1..][0] == q[|q| - 1];
    if |q| >= 3 {
      assert q[|q| - 3..][2] == q[|q| - 1];
    }
  }

  lemma EndsTrimmed(q: string, end: string)
    requires Plain(q) && (end == ";" || end == FENCE)
    ensures TrimSpace(q + end) == q + end
  {
    TrimSpaceKeeps(q);
    var s := q + end;
    assert s[0] == q[0] && !IsSpace(s[|s| - 1]);
    assert TrimLeft(s) == s;
  }

  lemma EndTakenOff(q: string, end: string)
    requires Plain(q) && (end == ";" || end == FENCE)
    ensures TrimSuffix(q + end, end) == q
    ensures end == ";" ==> TrimSuffix(q + end, FENCE) == q + end
  {
    var s := q + end;
    assert s[|s| - |end|..] == end && s[..|s| - |end|] == q;
    if end == ";" && |s| >= 3 {
      assert s[|s| - 3..][2] == ';';
    }
  }

  /** Takes off what may stand around a statement: space, a fence that was never
      opened, one terminator. */
  method Strip(s: string) returns (sql: string)
    ensures Occurs(s, sql)
    ensures forall q | Wraps(s, q) :: sql == q
  {
    assert OccursAt(s, s, 0);
    TrimOccurs(s, s);
    var a := TrimSpace(s);
    TrimSuffixOccurs(s, a, FENCE);
    var b := TrimSuffix(a, FENCE);
    TrimOccurs(s, b);
    var c := TrimSpace(b);
    TrimSuffixOccurs(s, c, ";");
    var d := TrimSuffix(c, ";");
    TrimOccurs(s, d);
    sql := TrimSpace(d);
    forall q | Wraps(s, q)
      ensures sql == q
    {
      StripsTo(s, q);
    }
  }

  lemma StripsTo(s: string, q: string)
    requires Wraps(s, q)
    ensures TrimSpace(TrimSuffix(TrimSpace(TrimSuffix(TrimSpace(s), FENCE)), ";")) == q
  {
    PlainKeepsItsEnd(q);
    if s == q + ";" {
      EndsTrimmed(q, ";");
      EndTakenOff(q, ";");
    } else if s == q + FENCE {
      EndsTrimmed(q, FENCE);
      EndTakenOff(q, FENCE);
    }
  }

  method StatementFrom(s: string, start: nat) returns (sql: string)
    requires start <= |s|
    ensures Occurs(s, sql)
    ensures forall q | Wraps(s[start..], q) :: sql == q
  {
    assert OccursAt(s, s, 0);
    SliceOccurs(s, s, start, |s|);
    assert s[start..|s|] == s[start..];
    sql := Strip(s[start..]);
    OccursTrans(sql, s[start..], s);
  }

  /** Picks the agent's statement out of its output: the first closed markdown
      fence if there is one, from the first word startOf finds, without a
      trailing fence or terminator.  What is returned is a piece of the output
      and one read-only SELECT; and such a statement, in a fence or not, after
      whatever prose, with or without its terminator, is returned as it stands.

      startOf stands for the regular expression that finds SELECT or WITH. */
  method ExtractSQL(out: string, startOf: string -> Option<nat>) returns (r: Option<string>)
    requires forall t :: startOf(t).Some? ==> startOf(t).value <= |t|
    ensures r.Some? ==> ReadOnlySelect(r.value) && Occurs(out, r.value)
    ensures r.Some? ==> !MultipleStatements(r.value)
    ensures forall t, q | Shows(out, t) && startOf(t).Some? && Wraps(t[startOf(t).value..], q) && ReadOnlySelect(q) ::
              r == Some(q)
    ensures forall t | Shows(out, t) && startOf(t).None? :: r == None
  {
    var s := TrimAndUnfence(out);
    var loc := startOf(s);
    if loc.None? {
      return None;
    }
    var sql := StatementFrom(s, loc.value);
    OccursTrans(sql, s, out);
    var v := ValidateReadOnlySQL(sql);
    if v != Accepted {
      return None;
    }
    AcceptedIsSingle(sql);
    return Some(sql);
  }
}
