/** watch: an incremental tail over a store that grows and is pruned meanwhile. */
module Watch {
  import opened Text
  import opened Events
  import opened Query
  import opened Timeline
  import Filters

  /** Stored rows are kept in id order, as the primary key orders them. */
  ghost predicate ById(rows: seq<Row>) { forall i, j | 0 <= i < j < |rows| :: rows[i].id < rows[j].id }

  lemma {:induction false} FilteredAll(rows: seq<Row>, keep: Row -> bool)
    requires forall x | x in rows :: keep(x)
    ensures Filtered(rows, keep) == rows
  {
    if rows != [] {
      var n := |rows| - 1;
      assert forall x | x in rows[..n] :: x in rows;
      FilteredAll(rows[..n], keep);
      assert rows[n] in rows && rows == rows[..n] + [rows[n]];
    }
  }

  lemma {:induction false} FilteredIsSorted(rows: seq<Row>, keep: Row -> bool)
    requires ById(rows)
    ensures ById(Filtered(rows, keep))
  {
    if rows != [] {
      var n := |rows| - 1;
      FilteredIsSorted(rows[..n], keep);
      FilteredMembers(rows[..n], keep);
      AppendSorted(Filtered(rows[..n], keep), rows[..n], rows[n]);
    }
  }

  lemma AppendSorted(before: seq<Row>, rows: seq<Row>, last: Row)
    requires ById(before) && forall x | x in before :: x in rows
    requires forall i | 0 <= i < |rows| :: rows[i].id < last.id
    ensures ById(before + [last])
  {
    assert forall x | x in rows :: x.id < last.id;
    assert forall i | 0 <= i < |before| :: before[i] in before;
  }

  /** SELECT ... WHERE id > after ORDER BY id ASC */
  function After(rows: seq<Row>, after: int): seq<Row> { Filtered(rows, (r: Row) => r.id > after) }

  /** EventsAfterID: a limit that is not positive means 500. */
  function EventsAfterID(rows: seq<Row>, after: int, limit: int): seq<Row> {
    var n := if limit <= 0 then 500 else limit;
    var all := After(rows, after);
    if n < |all| then all[..n] else all
  }

  /** LatestEventID: COALESCE(MAX(id), 0) */
  function LatestEventID(rows: seq<Row>): int {
    if rows == [] then 0 else
      var m := LatestEventID(rows[..|rows| - 1]);
      if rows[|rows| - 1].id > m then rows[|rows| - 1].id else m
  }

  lemma PrefixHasAllUpTo(all: seq<Row>, n: nat, x: Row)
    requires ById(all) && 0 < n <= |all| && x in all && x.id <= all[n - 1].id
    ensures x in all[..n]
  {
    var k :| 0 <= k < |all| && all[k] == x;
    assert all[..n][k] == x;
  }

  /** A batch is the rows next in line: nothing between the cursor and its last
      row is left out. */
  lemma BatchIsNext(rows: seq<Row>, after: int, limit: int)
    requires ById(rows)
    ensures var b := EventsAfterID(rows, after, limit);
            && ById(b)
            && (forall x | x in b :: x in rows && x.id > after)
            && (b != [] ==> forall x | x in rows && after < x.id <= b[|b| - 1].id :: x in b)
            && (b == [] ==> forall x | x in rows :: x.id <= after)
  {
    var keep := (r: Row) => r.id > after;
    var all := Filtered(rows, keep);
    FilteredIsSorted(rows, keep);
    FilteredMembers(rows, keep);
    var b := EventsAfterID(rows, after, limit);
    assert After(rows, after) == all;
    forall x | x in b ensures x in all {}
    forall x | x in rows && x.id > after ensures x in all && b != [] && (x.id <= b[|b| - 1].id ==> x in b) {
      assert keep(x);
      assert x in all;
      if b != all && x.id <= b[|b| - 1].id { PrefixHasAllUpTo(all, |b|, x); }
    }
  }

  /** Nothing is left for the next batch unless the limit is reached. */
  lemma BatchReachesTheLimit(rows: seq<Row>, after: int, limit: int)
    ensures var b := EventsAfterID(rows, after, limit);
            && |b| <= (if limit <= 0 then 500 else limit)
            && (|b| < (if limit <= 0 then 500 else limit) ==> forall x | x in rows && x.id > after :: x in b)
  {
    FilteredMembers(rows, (r: Row) => r.id > after);
  }

  function Matching(rows: seq<Row>, wanted: Event -> bool): seq<Row> { Filtered(rows, (r: Row) => wanted(r.ev)) }

  lemma {:induction false} MatchingGrows(rows: seq<Row>, i: nat, wanted: Event -> bool)
    requires i <= |rows|
    ensures |Matching(rows[..i], wanted)| <= |Matching(rows, wanted)|
  {
    if i < |rows| {
      var front := rows[..|rows| - 1];
      MatchingGrows(front, i, wanted);
      assert front[..i] == rows[..i];
    } else {
      assert rows[..i] == rows;
    }
  }

  function Cursor(batch: seq<Row>, cursor: int): int {
    if batch == [] then cursor else
      var c := Cursor(batch[..|batch| - 1], cursor);
      if batch[|batch| - 1].id > c then batch[|batch| - 1].id else c
  }

  /** watchStep.  The writer may fail at some write; then the cursor stays before
      the row that could not be written. */
  method WatchStep(rows: seq<Row>, lastID: int, limit: int, wanted: Event -> bool, failAt: Option<nat>)
    returns (written: seq<Row>, cursor: int, ok: bool)
    ensures var b := EventsAfterID(rows, lastID, limit);
            && (ok ==> written == Matching(b, wanted) && cursor == Cursor(b, lastID))
            && (ok <==> failAt.None? || |Matching(b, wanted)| <= failAt.value)
            && (!ok ==> |written| == failAt.value && exists k | 0 <= k < |b| ::
                  wanted(b[k].ev) && written == Matching(b[..k], wanted) && cursor == Cursor(b[..k], lastID))
  {
    var events := EventsAfterID(rows, lastID, limit);
    written, cursor := [], lastID;
    for i := 0 to |events|
      invariant written == Matching(events[..i], wanted) && cursor == Cursor(events[..i], lastID)
      invariant failAt.Some? ==> |written| <= failAt.value
    {
      var ev := events[i];
      assert events[..i + 1][..i] == events[..i];
      if wanted(ev.ev) {
        if failAt == Some(|written|) {
          MatchingGrows(events, i + 1, wanted);
          return written, cursor, false;
        }
        written := written + [ev];
      }
      if ev.id > cursor {
        cursor := ev.id;
      }
    }
    assert events[..|events|] == events;
    return written, cursor, true;
  }

  lemma {:induction false} CursorIsLastId(batch: seq<Row>, cursor: int)
    requires ById(batch) && forall x | x in batch :: x.id > cursor
    ensures Cursor(batch, cursor) == if batch == [] then cursor else batch[|batch| - 1].id
  {
    if batch != [] {
      var n := |batch| - 1;
      assert forall x | x in batch[..n] :: x in batch;
      CursorIsLastId(batch[..n], cursor);
      assert batch[n] in batch;
    }
  }

  // ---- the tail over a changing store ----

  datatype State = State(
    rows: seq<Row>,          // what the store holds
    nextID: int,             // AUTOINCREMENT: never handed out before
    cursor: int,
    delivered: seq<Row>,
    // history
    inserted: set<Row>,      // every row the store has held since the tail began
    prunedAhead: set<Row>)   // rows pruned while still ahead of the cursor

  datatype Action = Append(events: seq<Event>) | Prune(cutoff: int) | Poll(limit: int)

  function NewRows(events: seq<Event>, id: int): (r: seq<Row>)
    ensures |r| == |events| && forall i | 0 <= i < |r| :: r[i] == Row(id + i, events[i])
  {
    seq(|events|, i requires 0 <= i < |events| => Row(id + i, events[i]))
  }

  /** DELETE FROM events WHERE ts < cutoff */
  function Kept(rows: seq<Row>, cutoff: int): seq<Row> { Filtered(rows, (r: Row) => r.ev.ts >= cutoff) }

  lemma KeptMeans(rows: seq<Row>, cutoff: int)
    requires ById(rows)
    ensures ById(Kept(rows, cutoff)) && forall x :: x in Kept(rows, cutoff) <==> x in rows && x.ev.ts >= cutoff
  {
    FilteredIsSorted(rows, (r: Row) => r.ev.ts >= cutoff);
    FilteredMembers(rows, (r: Row) => r.ev.ts >= cutoff);
  }

  function Step(s: State, a: Action, wanted: Event -> bool): State {
    match a
    case Append(events) =>
      var added := NewRows(events, s.nextID);
      s.(rows := s.rows + added, nextID := s.nextID + |events|, inserted := s.inserted + set x | x in added)
    case Prune(cutoff) =>
      s.(rows := Kept(s.rows, cutoff),
         prunedAhead := s.prunedAhead + set x | x in s.rows && x.ev.ts < cutoff && x.id > s.cursor)
    case Poll(limit) =>
      var b := EventsAfterID(s.rows, s.cursor, limit);
      s.(delivered := s.delivered + Matching(b, wanted), cursor := Cursor(b, s.cursor))
  }

  function Run(s: State, schedule: seq<Action>, wanted: Event -> bool): State {
    if schedule == [] then s else
      Step(Run(s, schedule[..|schedule| - 1], wanted), schedule[|schedule| - 1], wanted)
  }

  /** The tail begins at some cursor, over any store whose ids are in order. */
  ghost predicate Starts(s: State) {
    && s.delivered == [] && s.prunedAhead == {} && s.cursor < s.nextID
    && s.inserted == (set x | x in s.rows)
    && ById(s.rows) && forall x | x in s.rows :: 0 < x.id < s.nextID
  }

  /** What every step keeps: what is delivered has strictly rising ids up to the cursor; and a
      row that was ever there, at or below the cursor and above the start, has
      been delivered if it matches, unless it was pruned while still ahead. */
  ghost predicate ExactlyOnce(s: State, start: int, wanted: Event -> bool) {
    && ById(s.rows) && start <= s.cursor < s.nextID
    && (forall x | x in s.rows :: x.id < s.nextID && x in s.inserted)
    && (forall x | x in s.inserted :: x.id < s.nextID && (x.id > s.cursor ==> x in s.rows || x in s.prunedAhead))
    && ById(s.delivered)
    && (forall x | x in s.delivered :: start < x.id <= s.cursor && x in s.inserted && wanted(x.ev))
    && (forall x | x in s.inserted && start < x.id <= s.cursor && wanted(x.ev) ::
          x in s.delivered || x in s.prunedAhead)
  }

  lemma InsertKeeps(s: State, start: int, wanted: Event -> bool, events: seq<Event>)
    requires ExactlyOnce(s, start, wanted)
    ensures ExactlyOnce(Step(s, Append(events), wanted), start, wanted)
  {
    var added := NewRows(events, s.nextID);
    var t := Step(s, Append(events), wanted);
    assert forall i | 0 <= i < |s.rows| :: s.rows[i] in s.rows;
    assert forall x :: x in t.rows <==> x in s.rows || x in added;
    forall x | x in added ensures s.nextID <= x.id < t.nextID {
      var i :| 0 <= i < |added| && added[i] == x;
    }
  }

  lemma PruneKeeps(s: State, start: int, wanted: Event -> bool, cutoff: int)
    requires ExactlyOnce(s, start, wanted)
    ensures ExactlyOnce(Step(s, Prune(cutoff), wanted), start, wanted)
  {
    KeptMeans(s.rows, cutoff);
  }

  lemma PollKeeps(s: State, start: int, wanted: Event -> bool, limit: int)
    requires ExactlyOnce(s, start, wanted)
    ensures ExactlyOnce(Step(s, Poll(limit), wanted), start, wanted)
  {
    var b := EventsAfterID(s.rows, s.cursor, limit);
    var m := Matching(b, wanted);
    var t := Step(s, Poll(limit), wanted);
    BatchIsNext(s.rows, s.cursor, limit);
    CursorIsLastId(b, s.cursor);
    FilteredIsSorted(b, (r: Row) => wanted(r.ev));
    FilteredMembers(b, (r: Row) => wanted(r.ev));
    assert b != [] ==> b[|b| - 1] in b;
    forall x | x in b ensures x.id <= t.cursor {
      var k :| 0 <= k < |b| && b[k] == x;
    }
    assert forall i | 0 <= i < |s.delivered| :: s.delivered[i] in s.delivered;
    assert forall i | 0 <= i < |m| :: m[i] in m;
    assert ById(t.delivered);
    assert forall x :: x in t.delivered <==> x in s.delivered || x in m;
  }

  /** Over every interleaving of inserts, prunes and polls. */
  lemma {:induction false} DeliveredExactlyOnce(s: State, schedule: seq<Action>, wanted: Event -> bool)
    requires Starts(s)
    ensures ExactlyOnce(Run(s, schedule, wanted), s.cursor, wanted)
  {
    if schedule != [] {
      var n := |schedule| - 1;
      DeliveredExactlyOnce(s, schedule[..n], wanted);
      var t := Run(s, schedule[..n], wanted);
      match schedule[n]
      case Append(events) => InsertKeeps(t, s.cursor, wanted, events);
      case Prune(cutoff) => PruneKeeps(t, s.cursor, wanted, cutoff);
      case Poll(limit) => PollKeeps(t, s.cursor, wanted, limit);
    }
  }

  lemma {:induction false} LatestIsHighest(rows: seq<Row>)
    ensures forall x | x in rows :: x.id <= LatestEventID(rows)
    ensures rows != [] && (forall x | x in rows :: x.id > 0) ==> exists x | x in rows :: x.id == LatestEventID(rows)
  {
    if rows != [] {
      var n := |rows| - 1;
      LatestIsHighest(rows[..n]);
      assert rows[n] in rows && forall x :: x in rows <==> x in rows[..n] || x == rows[n];
    }
  }

  lemma {:induction false} NewRowsHaveNewIds(s: State, schedule: seq<Action>, wanted: Event -> bool)
    ensures var t := Run(s, schedule, wanted);
            t.nextID >= s.nextID && forall x | x in t.inserted :: x in s.inserted || x.id >= s.nextID
  {
    if schedule != [] {
      NewRowsHaveNewIds(s, schedule[..|schedule| - 1], wanted);
    }
  }

  /** A tail that begins at the latest id, as without --since, shows exactly the
      wanted rows inserted later, even when every old row is pruned before. */
  lemma FreshTailShowsOnlyNewRows(s: State, schedule: seq<Action>, wanted: Event -> bool)
    requires Starts(s) && s.cursor == LatestEventID(s.rows)
    ensures var t := Run(s, schedule, wanted);
            && (forall x | x in t.delivered :: x !in s.rows)
            && (forall x | x in t.inserted && x !in s.rows && wanted(x.ev) && x.id <= t.cursor ::
                  x in t.delivered || x in t.prunedAhead)
  {
    LatestIsHighest(s.rows);
    DeliveredExactlyOnce(s, schedule, wanted);
    NewRowsHaveNewIds(s, schedule, wanted);
  }

  // ---- the backfill before the tail ----

  function InWindow(rows: seq<Row>, from: int, to: int): seq<Row> {
    Filtered(rows, (r: Row) => from <= r.ev.ts <= to)
  }

  /** What --since shows first: the oldest rows of the window, up to the limit, as
      Query reads it. */
  function Backfill(rows: seq<Row>, from: int, to: int, limit: int): seq<Row> {
    Limited(Ordered(InWindow(rows, from, to)), Filters.LimitOr(limit, 200))
  }

  /** The backfill is the oldest rows of the window, oldest first, and all of them
      unless the limit is reached. */
  lemma BackfillIsTheOldest(rows: seq<Row>, from: int, to: int, limit: int)
    requires DistinctIds(rows)
    ensures var b := Backfill(rows, from, to, limit);
            && (forall i, j | 0 <= i < j < |b| ::
                  b[i].ev.ts < b[j].ev.ts || (b[i].ev.ts == b[j].ev.ts && b[i].id < b[j].id))
            && (forall x | x in b :: x in rows && from <= x.ev.ts <= to)
            && (forall x, y | x in b && y in rows && from <= y.ev.ts <= to && y !in b ::
                  x.ev.ts < y.ev.ts || (x.ev.ts == y.ev.ts && x.id < y.id))
            && |b| <= (if limit <= 0 then 200 else limit)
            && (|b| < (if limit <= 0 then 200 else limit) ==>
                  forall y | y in rows && from <= y.ev.ts <= to :: y in b)
  {
    var keep := (r: Row) => from <= r.ev.ts <= to;
    FilteredMembers(rows, keep);
    FilteredIdsDistinct(rows, keep);
    var all := Ordered(InWindow(rows, from, to));
    OrderedIsOldestFirst(InWindow(rows, from, to));
    var b := Backfill(rows, from, to, limit);
    forall x | x in b ensures x in all {}
    forall x, y | x in b && y in all && y !in b ensures Before(x, y) {
      PrefixIsBefore(all, |b|, x, y);
    }
  }

  lemma PrefixIsBefore(all: seq<Row>, n: nat, x: Row, y: Row)
    requires OldestFirst(all) && n <= |all| && x in all[..n] && y in all && y !in all[..n]
    ensures Before(x, y)
  {
    var i :| 0 <= i < n && all[..n][i] == x;
    var j :| 0 <= j < |all| && all[j] == y;
    assert forall k | 0 <= k < n :: all[..n][k] == all[k] && all[k] in all[..n];
  }

  /** The cursor the tail begins with: the highest id shown, or the latest one in
      the store when nothing was. */
  function StartCursor(shown: seq<Row>, latest: int): int {
    if Cursor(shown, 0) == 0 then latest else Cursor(shown, 0)
  }

  /** runWatch before its loop, on the rows the backfill's query returned, if there
      was one, and what LatestEventID answers after it. */
  method StartWatch(backfill: seq<Row>, latest: int, wanted: Event -> bool) returns (written: seq<Row>, lastID: int)
    ensures written == Matching(backfill, wanted) && lastID == StartCursor(backfill, latest)
  {
    written, lastID := [], 0;
    for i := 0 to |backfill|
      invariant written == Matching(backfill[..i], wanted) && lastID == Cursor(backfill[..i], 0)
    {
      assert backfill[..i + 1][..i] == backfill[..i];
      if wanted(backfill[i].ev) {
        written := written + [backfill[i]];
      }
      if backfill[i].id > lastID {
        lastID := backfill[i].id;
      }
    }
    assert backfill[..|backfill|] == backfill;
    if lastID == 0 {
      lastID := latest;
    }
  }

  ghost predicate ClockNeverStepsBack(rows: seq<Row>) {
    forall x, y | x in rows && y in rows && x.id <= y.id :: x.ev.ts <= y.ev.ts
  }

  lemma OldestFirstIsById(all: seq<Row>, rows: seq<Row>)
    requires OldestFirst(all) && ClockNeverStepsBack(rows) && forall x | x in all :: x in rows
    ensures ById(all)
  {
    forall i, j | 0 <= i < j < |all| ensures all[i].id < all[j].id {
      assert all[i] in all && all[j] in all;
      assert Before(all[i], all[j]);
    }
  }

  lemma WindowById(rows: seq<Row>, from: int, to: int)
    requires ById(rows) && ClockNeverStepsBack(rows)
    ensures ById(Ordered(InWindow(rows, from, to)))
    ensures forall x :: x in Ordered(InWindow(rows, from, to)) <==> x in rows && from <= x.ev.ts <= to
  {
    var window := InWindow(rows, from, to);
    FilteredIsSorted(rows, (r: Row) => from <= r.ev.ts <= to);
    FilteredMembers(rows, (r: Row) => from <= r.ev.ts <= to);
    OrderedIsOldestFirst(window);
    OldestFirstIsById(Ordered(window), rows);
  }

  /** b is exactly the rows from time from on whose ids do not exceed upTo. */
  ghost predicate Complete(b: seq<Row>, rows: seq<Row>, from: int, upTo: int) {
    forall x :: x in b <==> x in rows && from <= x.ev.ts && x.id <= upTo
  }

  lemma PrefixOfWindow(all: seq<Row>, n: nat, rows: seq<Row>, from: int, to: int)
    requires ById(all) && ClockNeverStepsBack(rows) && 0 < n <= |all|
    requires forall x :: x in all <==> x in rows && from <= x.ev.ts <= to
    ensures Complete(all[..n], rows, from, all[n - 1].id)
  {
    var last := all[n - 1];
    assert last in all;
    forall x | x in all[..n] ensures x in all && x.id <= last.id {
      var k :| 0 <= k < n && all[..n][k] == x;
    }
    forall x | x in rows && from <= x.ev.ts && x.id <= last.id ensures x in all[..n] {
      assert x.ev.ts <= last.ev.ts;
      PrefixHasAllUpTo(all, n, x);
    }
  }

  /** Where timestamps never fall as ids rise, a non-empty backfill ends at its
      cursor and has left out no row from the start of the window up to there. */
  lemma BackfillIsComplete(rows: seq<Row>, from: int, to: int, limit: int)
    requires ById(rows) && ClockNeverStepsBack(rows) && forall x | x in rows :: x.id > 0
    requires Backfill(rows, from, to, limit) != []
    ensures var b := Backfill(rows, from, to, limit);
            && ById(b) && Cursor(b, 0) == b[|b| - 1].id
            && Complete(b, rows, from, b[|b| - 1].id)
  {
    var all := Ordered(InWindow(rows, from, to));
    var b := Backfill(rows, from, to, limit);
    WindowById(rows, from, to);
    assert b == all[..|b|];
    PrefixOfWindow(all, |b|, rows, from, to);
    CursorIsLastId(b, 0);
  }

  lemma MatchingJoins(b: seq<Row>, delivered: seq<Row>, cursor: int, wanted: Event -> bool)
    requires ById(b) && ById(delivered)
    requires (forall x | x in b :: x.id <= cursor) && (forall x | x in delivered :: x.id > cursor)
    ensures ById(Matching(b, wanted) + delivered)
    ensures forall x :: x in Matching(b, wanted) <==> x in b && wanted(x.ev)
  {
    var m := Matching(b, wanted);
    FilteredIsSorted(b, (r: Row) => wanted(r.ev));
    FilteredMembers(b, (r: Row) => wanted(r.ev));
    assert forall i | 0 <= i < |m| :: m[i] in m;
    assert forall i | 0 <= i < |delivered| :: delivered[i] in delivered;
  }

  /** watch --since end to end: over any inserts, prunes and polls after the
      backfill's query, what backfill and tail show together has strictly rising
      ids, and no wanted row from the start of the window up to the cursor is
      missing, unless it was pruned before the poll that passed it. */
  lemma BackfillJoinsTail(s: State, from: int, to: int, limit: int, latest: int,
                          schedule: seq<Action>, wanted: Event -> bool)
    requires Starts(s) && ClockNeverStepsBack(s.rows)
    requires Backfill(s.rows, from, to, limit) != []
    requires s.cursor == StartCursor(Backfill(s.rows, from, to, limit), latest)
    ensures var t := Run(s, schedule, wanted);
            var shown := Matching(Backfill(s.rows, from, to, limit), wanted) + t.delivered;
            && ById(shown)
            && (forall x | x in shown :: x in t.inserted && wanted(x.ev))
            && (forall x | x in t.inserted && wanted(x.ev) && from <= x.ev.ts && x.id <= t.cursor ::
                  x in shown || x in t.prunedAhead)
  {
    var b, t := Backfill(s.rows, from, to, limit), Run(s, schedule, wanted);
    BackfillIsComplete(s.rows, from, to, limit);
    assert b[|b| - 1] in b;
    DeliveredExactlyOnce(s, schedule, wanted);
    NewRowsHaveNewIds(s, schedule, wanted);
    InsertedStay(s, schedule, wanted);
    MatchingJoins(b, t.delivered, s.cursor, wanted);
  }

  lemma {:induction false} InsertedStay(s: State, schedule: seq<Action>, wanted: Event -> bool)
    ensures forall x | x in s.inserted :: x in Run(s, schedule, wanted).inserted
  {
    if schedule != [] {
      InsertedStay(s, schedule[..|schedule| - 1], wanted);
    }
  }

  /** The store as the tail finds it when it begins at a cursor. */
  function TailFrom(rows: seq<Row>, nextID: int, cursor: int): State {
    State(rows, nextID, cursor, [], set x | x in rows, {})
  }

  /** After an empty backfill the tail begins at the latest id: rows inserted
      between the backfill's query and that look are never shown, whenever and
      however often is polled. */
  lemma EmptyBackfillMissesRows(rows: seq<Row>, nextID: int, events: seq<Event>,
                                schedule: seq<Action>, wanted: Event -> bool)
    requires ById(rows) && nextID > 0 && forall x | x in rows :: 0 < x.id < nextID
    ensures var now := rows + NewRows(events, nextID);
            var s := TailFrom(now, nextID + |events|, StartCursor([], LatestEventID(now)));
            forall x | x in NewRows(events, nextID) :: x !in Run(s, schedule, wanted).delivered
  {
    var added := NewRows(events, nextID);
    var now := rows + added;
    var s := TailFrom(now, nextID + |events|, StartCursor([], LatestEventID(now)));
    assert forall i | 0 <= i < |rows| :: rows[i] in rows;
    forall x | x in added ensures nextID <= x.id < nextID + |events| {
      var i :| 0 <= i < |added| && added[i] == x;
    }
    assert forall x :: x in now <==> x in rows || x in added;
    LatestIsHighest(now);
    FreshTailShowsOnlyNewRows(s, schedule, wanted);
  }

  lemma {:induction false} CursorIsHighest(batch: seq<Row>, cursor: int)
    ensures forall x | x in batch :: x.id <= Cursor(batch, cursor)
  {
    if batch != [] {
      var n := |batch| - 1;
      CursorIsHighest(batch[..n], cursor);
      assert forall x :: x in batch <==> x in batch[..n] || x == batch[n];
    }
  }

  /** Whatever the window and the limit, a non-empty backfill joins the tail. */
  ghost predicate EveryBackfillJoins(rows: seq<Row>) {
    forall from, to, limit | from <= to && 0 <= limit && Backfill(rows, from, to, limit) != [] ::
      Complete(Backfill(rows, from, to, limit), rows, from, Cursor(Backfill(rows, from, to, limit), 0))
  }

  /** A stored row older than one with a smaller id makes some backfill miss a row. */
  lemma ClockStepLosesARow(rows: seq<Row>, x: Row, y: Row)
    requires ById(rows) && x in rows && y in rows && x.id <= y.id && x.ev.ts > y.ev.ts
    ensures !EveryBackfillJoins(rows)
  {
    var from := y.ev.ts;
    var window := InWindow(rows, from, from);
    FilteredIsSorted(rows, (r: Row) => from <= r.ev.ts <= from);
    FilteredMembers(rows, (r: Row) => from <= r.ev.ts <= from);
    OrderedIsOldestFirst(window);
    assert y in window && x !in window;
    var b := Backfill(rows, from, from, |Ordered(window)|);
    assert b == Ordered(window);
    assert y in b && x !in b;
    CursorIsHighest(b, 0);
    assert !Complete(b, rows, from, Cursor(b, 0));
  }

  /** Backfill and tail fit together for every --since and --limit exactly when
      no stored timestamp falls as ids rise. */
  lemma BackfillJoinsExactly(rows: seq<Row>)
    requires ById(rows) && forall x | x in rows :: x.id > 0
    ensures EveryBackfillJoins(rows) <==> ClockNeverStepsBack(rows)
  {
    if ClockNeverStepsBack(rows) {
      forall from, to, limit | from <= to && 0 <= limit && Backfill(rows, from, to, limit) != []
        ensures Complete(Backfill(rows, from, to, limit), rows, from, Cursor(Backfill(rows, from, to, limit), 0))
      {
        BackfillIsComplete(rows, from, to, limit);
      }
    } else {
      var x, y :| x in rows && y in rows && x.id <= y.id && x.ev.ts > y.ev.ts;
      ClockStepLosesARow(rows, x, y);
    }
  }

  /** Where the clock stepped back, a row can fall between backfill and tail. */
  lemma GapWhenTheClockStepsBack(early: Event, late: Event)
    requires early.ts == 5 && late.ts == 10
    ensures var rows := [Row(1, late), Row(2, early)];
            var b := Backfill(rows, 0, 20, 1);
            ById(rows) && b == [Row(2, early)] && Cursor(b, 0) == 2 && Row(1, late) !in b
  {
    var first, second := Row(1, late), Row(2, early);
    BackfillOfPair(first, second);
    assert [second][..0] == [] && Cursor([second], 0) == 2;
  }

  lemma BackfillOfPair(first: Row, second: Row)
    requires 0 <= second.ev.ts < first.ev.ts <= 20
    ensures Backfill([first, second], 0, 20, 1) == [second]
  {
    FilteredAll([first, second], (r: Row) => 0 <= r.ev.ts <= 20);
    assert InWindow([first, second], 0, 20) == [first, second];
    OutOfOrderPair(first, second);
    assert [second, first][..1] == [second];
  }

  lemma OutOfOrderPair(first: Row, second: Row)
    requires Before(second, first)
    ensures Ordered([first, second]) == [second, first]
  {
    assert [first, second][..1] == [first] && [first][..0] == [];
    assert Ordered([first]) == [first];
    assert Timeline.Insert(second, [first]) == [second, first];
  }
}
