/** Ordered, limited selection over the stored rows, and what timeline shows. */
module Timeline {
  import opened Events
  import opened Query
  import Filters
  import SqlText

  /** ORDER BY ts ASC, id ASC */
  predicate Before(a: Row, b: Row) { a.ev.ts < b.ev.ts || (a.ev.ts == b.ev.ts && a.id < b.id) }

  ghost predicate OldestFirst(rows: seq<Row>) { forall i, j | 0 <= i < j < |rows| :: Before(rows[i], rows[j]) }

  ghost predicate NewestFirst(rows: seq<Row>) { forall i, j | 0 <= i < j < |rows| :: Before(rows[j], rows[i]) }

  ghost predicate SameRows(a: seq<Row>, b: seq<Row>) { forall r :: r in a <==> r in b }

  ghost predicate DistinctIds(rows: seq<Row>) { forall i, j | 0 <= i < j < |rows| :: rows[i].id != rows[j].id }

  function Reversed(rows: seq<Row>): (r: seq<Row>)
    ensures |r| == |rows| && forall i | 0 <= i < |rows| :: r[i] == rows[|rows| - 1 - i]
  {
    if rows == [] then [] else [rows[|rows| - 1]] + Reversed(rows[..|rows| - 1])
  }

  /** LIMIT n */
  function Limited(rows: seq<Row>, n: nat): seq<Row> { if n < |rows| then rows[..n] else rows }

  function LastRows(rows: seq<Row>, n: nat): seq<Row> { if n < |rows| then rows[|rows| - n..] else rows }

  // ---- there is one oldest-first order, and it is reached ----

  function Insert(r: Row, rows: seq<Row>): seq<Row> {
    if rows == [] || !Before(r, rows[|rows| - 1]) then rows + [r]
    else Insert(r, rows[..|rows| - 1]) + [rows[|rows| - 1]]
  }

  function Ordered(rows: seq<Row>): seq<Row> {
    if rows == [] then [] else Insert(rows[|rows| - 1], Ordered(rows[..|rows| - 1]))
  }

  lemma {:induction false} InsertKeepsOrder(r: Row, rows: seq<Row>)
    requires OldestFirst(rows) && forall x | x in rows :: x.id != r.id
    ensures OldestFirst(Insert(r, rows))
    ensures forall x :: x in Insert(r, rows) <==> x == r || x in rows
  {
    if rows != [] {
      var n := |rows| - 1;
      var last := rows[n];
      assert last in rows;
      assert forall x :: x in rows <==> x in rows[..n] || x == last;
      if Before(r, last) {
        InsertKeepsOrder(r, rows[..n]);
        var front := Insert(r, rows[..n]);
        assert forall i | 0 <= i < |front| :: front[i] in front;
        assert forall i | 0 <= i < n :: Before(rows[i], last);
        assert forall x | x in front :: Before(x, last);
      } else {
        assert Before(last, r);
        assert forall i | 0 <= i < n :: Before(rows[i], last);
      }
    }
  }

  lemma {:induction false} OrderedIsOldestFirst(rows: seq<Row>)
    requires DistinctIds(rows)
    ensures OldestFirst(Ordered(rows)) && SameRows(Ordered(rows), rows)
    ensures var r := Ordered(rows);
            forall i, j | 0 <= i < j < |r| ::
              r[i].ev.ts < r[j].ev.ts || (r[i].ev.ts == r[j].ev.ts && r[i].id < r[j].id)
  {
    if rows != [] {
      var n := |rows| - 1;
      OrderedIsOldestFirst(rows[..n]);
      forall x | x in Ordered(rows[..n]) ensures x.id != rows[n].id {
        var i :| 0 <= i < n && rows[..n][i] == x;
        assert rows[i].id != rows[n].id;
      }
      InsertKeepsOrder(rows[n], Ordered(rows[..n]));
      assert forall x :: x in rows <==> x in rows[..n] || x == rows[n];
    }
  }

  /** The last of an oldest-first list is not before any of its rows. */
  lemma LastIsLatest(a: seq<Row>, x: Row)
    requires OldestFirst(a) && x in a
    ensures x == a[|a| - 1] || Before(x, a[|a| - 1])
    ensures x in a[..|a| - 1] <==> x != a[|a| - 1]
  {
    var i :| 0 <= i < |a| && a[i] == x;
    if i < |a| - 1 {
      assert a[..|a| - 1][i] == x;
    }
  }

  lemma {:induction false} OldestFirstUnique(a: seq<Row>, b: seq<Row>)
    requires OldestFirst(a) && OldestFirst(b) && SameRows(a, b)
    ensures a == b
  {
    assert b != [] ==> b[0] in b && b[0] in a;
    if a != [] {
      assert a[0] in b;
      var x, y := a[|a| - 1], b[|b| - 1];
      assert x in b && y in a;
      LastIsLatest(a, y);
      LastIsLatest(b, x);
      assert x == y;
      var front, back := a[..|a| - 1], b[..|b| - 1];
      forall r ensures r in front <==> r in back {
        if r in a { LastIsLatest(a, r); LastIsLatest(b, r); }
      }
      OldestFirstUnique(front, back);
      assert a == front + [x] && b == back + [y];
    }
  }

  lemma ReversedIsOrdered(matching: seq<Row>, newest: seq<Row>)
    requires DistinctIds(matching) && NewestFirst(newest) && SameRows(newest, matching)
    ensures Reversed(newest) == Ordered(matching)
  {
    var oldest := Reversed(newest);
    forall r ensures r in oldest <==> r in newest {
      if r in newest {
        var i :| 0 <= i < |newest| && newest[i] == r;
        assert oldest[|newest| - 1 - i] == r;
      }
    }
    OrderedIsOldestFirst(matching);
    OldestFirstUnique(oldest, Ordered(matching));
  }

  lemma LimitThenReverse(rows: seq<Row>, n: nat)
    ensures Reversed(Limited(rows, n)) == LastRows(Reversed(rows), n)
  {
    var a, b := Reversed(Limited(rows, n)), LastRows(Reversed(rows), n);
    if n < |rows| {
      forall i | 0 <= i < n ensures a[i] == b[i] {
        assert a[i] == rows[n - 1 - i];
        assert b[i] == Reversed(rows)[|rows| - n + i];
      }
    }
  }

  /** timeline asks for the newest rows first, keeps the first n, and turns them
      round: it shows the last n rows of the oldest-first list, whatever
      newest-first sequence of the matching rows the database produced. */
  lemma TimelineShowsTheLastRows(matching: seq<Row>, newest: seq<Row>, n: nat)
    requires DistinctIds(matching) && NewestFirst(newest) && SameRows(newest, matching)
    ensures var all := Ordered(matching);
            Reversed(if n < |newest| then newest[..n] else newest) == if n < |all| then all[|all| - n..] else all
  {
    ReversedIsOrdered(matching, newest);
    LimitThenReverse(newest, n);
  }

  /** The rows that satisfy a WHERE condition, in their order. */
  function Filtered(rows: seq<Row>, keep: Row -> bool): seq<Row> {
    if rows == [] then [] else
      var before := Filtered(rows[..|rows| - 1], keep);
      var last := rows[|rows| - 1];
      if keep(last) then before + [last] else before
  }

  lemma {:induction false} FilteredMembers(rows: seq<Row>, keep: Row -> bool)
    ensures forall x :: x in Filtered(rows, keep) <==> x in rows && keep(x)
  {
    if rows != [] {
      var n := |rows| - 1;
      FilteredMembers(rows[..n], keep);
      assert rows == rows[..n] + [rows[n]];
    }
  }

  lemma {:induction false} FilteredIdsDistinct(rows: seq<Row>, keep: Row -> bool)
    requires DistinctIds(rows)
    ensures DistinctIds(Filtered(rows, keep))
  {
    if rows != [] {
      var n := |rows| - 1;
      FilteredIdsDistinct(rows[..n], keep);
      FilteredMembers(rows[..n], keep);
      var before := Filtered(rows[..n], keep);
      forall i | 0 <= i < |before| ensures before[i].id != rows[n].id {
        assert before[i] in rows[..n];
        var k :| 0 <= k < n && rows[k] == before[i];
      }
    }
  }

  lemma WhatTheTextSelects(rows: seq<Row>, f: Filters.Filter, text: string, args: seq<Value>, newest: seq<Row>)
    requires forall e :: Filters.Answers(f, text, args, e)
    requires forall r :: r in newest <==> r in rows && SqlText.Selects(text, args, r.ev)
    ensures SameRows(newest, Filtered(rows, (r: Row) => Filters.Selects(f, r.ev)))
  {
    FilteredMembers(rows, (r: Row) => Filters.Selects(f, r.ev));
    forall r: Row ensures SqlText.Selects(text, args, r.ev) <==> Filters.Selects(f, r.ev) {
      assert Filters.Answers(f, text, args, r.ev);
    }
  }

  /** timeline end to end: a text prepared for a Filter is run; from any newest-first
      list of the rows it selects, what is shown is the last n of the rows the Filter
      asks for, oldest first. */
  lemma TimelineAnswersTheFilter(
      rows: seq<Row>, f: Filters.Filter, text: string, args: seq<Value>, newest: seq<Row>, n: nat)
    requires forall e :: Filters.Answers(f, text, args, e)
    requires DistinctIds(rows) && forall r :: r in newest <==> r in rows && SqlText.Selects(text, args, r.ev)
    requires forall i, j | 0 <= i < j < |newest| ::
               newest[i].ev.ts > newest[j].ev.ts || (newest[i].ev.ts == newest[j].ev.ts && newest[i].id > newest[j].id)
    ensures var all := Ordered(Filtered(rows, (r: Row) => Filters.Selects(f, r.ev)));
            Reversed(if n < |newest| then newest[..n] else newest) == if n < |all| then all[|all| - n..] else all
  {
    var keep := (r: Row) => Filters.Selects(f, r.ev);
    FilteredIdsDistinct(rows, keep);
    WhatTheTextSelects(rows, f, text, args, newest);
    TimelineShowsTheLastRows(Filtered(rows, keep), newest, n);
  }

  /** The in-place reversal. */
  method ReverseInPlace(events: array<Row>)
    modifies events
    ensures events[..] == Reversed(old(events[..]))
  {
    var i, j := 0, events.Length - 1;
    while i < j
      invariant 0 <= i <= events.Length && j == events.Length - 1 - i
      invariant i <= j + 1 || events.Length == 0
      invariant forall k | 0 <= k < i :: events[k] == old(events[events.Length - 1 - k])
      invariant forall k | j < k < events.Length :: events[k] == old(events[events.Length - 1 - k])
      invariant forall k | i <= k <= j :: events[k] == old(events[k])
    {
      events[i], events[j] := events[j], events[i];
      i, j := i + 1, j - 1;
    }
    assert forall k | 0 <= k < events.Length :: events[..][k] == old(events[..])[events.Length - 1 - k];
  }
}
