/** The event store's write side and the flush stage that feeds it. */
module Batcher {
  import opened Events
  import opened Batching

  /** How a call to InsertEvents ends. */
  datatype Fault = Clean | AtStatement(index: nat) | AtCommit

  class Store {
    var rows: seq<Event>
    ghost var batches: seq<seq<Event>>   // one entry per committed transaction

    constructor ()
      ensures rows == [] && batches == []
    {
      rows, batches := [], [];
    }

    /** One transaction: every event becomes a row, or none does.  The reported
        total is the loss booked on the events that were written. */
    method InsertEvents(events: seq<Event>, fault: Fault) returns (ok: bool, dropped: int)
      modifies this
      ensures events == [] ==> ok && dropped == 0 && rows == old(rows) && batches == old(batches)
      ensures events != [] ==> (ok <==> (fault.AtStatement? ==> fault.index >= |events|) && fault != AtCommit)
      ensures events != [] && ok ==>
                rows == old(rows) + events && batches == old(batches) + [events] && dropped == DropSum(events)
      ensures !ok ==> rows == old(rows) && batches == old(batches)
      ensures !ok ==> dropped == DropSum(if fault.AtStatement? then events[..fault.index] else events)
    {
      dropped := 0;
      if |events| == 0 {
        return true, 0;
      }
      var tx: seq<Event> := [];
      for i := 0 to |events|
        invariant rows == old(rows) && batches == old(batches)
        invariant tx == events[..i] && dropped == DropSum(events[..i])
        invariant fault.AtStatement? ==> i <= fault.index
      {
        if fault == AtStatement(i) {
          return false, dropped;
        }
        tx := tx + [events[i]];
        assert events[..i + 1][..i] == events[..i];
        dropped := dropped + events[i].droppedBefore;
      }
      assert events[..|events|] == events;
      if fault == AtCommit {
        return false, dropped;
      }
      rows := rows + tx;
      batches := batches + [events];
      return true, dropped;
    }
  }

  /** What the flush stage meets when it next looks at its channels: an event, the
      closed ingest channel, or no event - in which case the ticker may have
      fired and the context may have been cancelled. */
  datatype Move = Deliver(ev: Event) | Closed | Idle(tick: bool, cancelled: bool)

  /** The events among the moves from i up to j, in order. */
  function Between(moves: seq<Move>, i: nat, j: nat): seq<Event>
    requires i <= j <= |moves|
  {
    if i == j then [] else
      var before := Between(moves, i, j - 1);
      if moves[j - 1].Deliver? then before + [moves[j - 1].ev] else before
  }

  lemma {:induction false} BetweenSplit(moves: seq<Move>, i: nat, j: nat, k: nat)
    requires i <= j <= k <= |moves|
    ensures Between(moves, i, k) == Between(moves, i, j) + Between(moves, j, k)
    decreases k
  {
    if j == k {
      assert Between(moves, i, j) + [] == Between(moves, i, j);
    } else {
      BetweenSplit(moves, i, j, k - 1);
    }
  }

  lemma FirstOfBetween(moves: seq<Move>, at: nat, pos: nat)
    requires at < pos <= |moves| && moves[at].Deliver?
    ensures Between(moves, at, pos) == [moves[at].ev] + Between(moves, at + 1, pos)
  {
    BetweenSplit(moves, at, at + 1, pos);
    assert Between(moves, at, at) == [];
  }

  lemma CollectedOneByOne(s: Stage, ev: Event, rest: seq<Event>)
    ensures Collected(s, [ev] + rest) == Collected(s.(batch := s.batch + [ev]), rest)
  {
    assert s.batch + ([ev] + rest) == s.batch + [ev] + rest;
  }

  function Arrived(moves: seq<Move>, i: nat): seq<Event>
    requires i <= |moves|
  {
    Between(moves, 0, i)
  }

  ghost predicate OpenBetween(moves: seq<Move>, i: nat, j: nat)
    requires i <= j <= |moves|
  {
    forall k | i <= k < j :: moves[k] != Closed
  }

  function Max(a: nat, b: nat): nat { if a < b then b else a }

  datatype Outcome = Waiting | Finished | Failed

  class EventBatcher {
    const store: Store
    const batchSize: nat
    const maxBatch: nat
    var batch: seq<Event>
    var lastDropped: int

    constructor (store: Store, batchSize: nat, maxBatch: nat)
      ensures this.store == store && this.batchSize == batchSize && this.maxBatch == maxBatch
      ensures batch == [] && lastDropped == 0
    {
      this.store, this.batchSize, this.maxBatch := store, batchSize, maxBatch;
      batch, lastDropped := [], 0;
    }

    ghost function Now(): Stage
      reads this, store
    {
      Stage(batch, lastDropped, store.rows, store.batches)
    }

    function Limit(): nat { Max(batchSize, maxBatch) }

    method Append(ev: Event)
      modifies this`batch
      ensures batch == old(batch) + [ev]
    {
      batch := batch + [ev];
    }

    /** Writes the batch, after booking the drops counted since the last flush on
        its first event.  A failed write keeps the batch and what was booked. */
    method Flush(current: int, fault: Fault) returns (ok: bool)
      modifies this, store
      ensures Now() == Flushed(old(Now()), current, ok)
      ensures old(batch) == [] || fault == Clean ==> ok
      ensures ok ==> batch == []
    {
      if |batch| == 0 {
        return true;
      }
      if current > lastDropped {
        batch := batch[0 := batch[0].(droppedBefore := batch[0].droppedBefore + (current - lastDropped))];
        lastDropped := current;
      }
      var total;
      ok, total := store.InsertEvents(batch, fault);
      if !ok {
        return false;
      }
      batch := [];
      return true;
    }

    /** Takes what is ready, up to maxBatch; false when ingest turns out closed. */
    method DrainReady(moves: seq<Move>, start: nat) returns (open: bool, pos: nat)
      requires start <= |moves|
      modifies this`batch
      ensures start <= pos <= |moves| && batch == old(batch) + Between(moves, start, pos)
      ensures |batch| <= Max(|old(batch)|, maxBatch)
      ensures if open then OpenBetween(moves, start, pos) else start < pos && moves[pos - 1] == Closed
      ensures open ==> |batch| >= maxBatch || pos == |moves| || (start < pos && moves[pos - 1].Idle?)
    {
      pos := start;
      while |batch| < maxBatch
        invariant start <= pos <= |moves| && batch == old(batch) + Between(moves, start, pos)
        invariant |batch| <= Max(|old(batch)|, maxBatch)
        invariant OpenBetween(moves, start, pos)
        decreases |moves| - pos
      {
        if pos == |moves| {
          return true, pos;
        }
        var m := moves[pos];
        pos := pos + 1;
        match m
        case Deliver(ev) => Append(ev);
        case Closed => return false, pos;
        case Idle(_, _) => return true, pos;
      }
      return true, pos;
    }

    /** The moves up to pos have been taken and outcome is what came of it.  What
        arrived is what was stored since start or is still held, in order, and
        differs from it only in the losses booked at the head of each batch; every
        batch written is non-empty and bounded; nothing is pending after a live
        tick; and only a closed channel or a failed insert ends the stage. */
    ghost predicate Going(start: Stage, moves: seq<Move>, pos: nat, outcome: Outcome, fault: nat -> Fault)
      reads this, store
    {
      && pos <= |moves|
      && Kept(Now(), start, Arrived(moves, pos), Limit())
      && match outcome
         case Waiting =>
           && |batch| < batchSize && OpenBetween(moves, 0, pos) && EndsWith(Arrived(moves, pos), batch)
           && (0 < pos && moves[pos - 1] == Idle(true, false) ==> batch == [])
         case Finished => batch == [] && 0 < pos && moves[pos - 1] == Closed
         case Failed => fault(pos) != Clean
    }

    lemma GoingFromStart(moves: seq<Move>, fault: nat -> Fault)
      requires batch == [] && lastDropped == 0 && batchSize > 0 && BatchesFit(store.batches, Limit())
      ensures Going(Now(), moves, 0, Waiting, fault)
    {
      StartKept(Now(), Limit());
      assert Arrived(moves, 0) == [];
    }

    /** The for-select loop.  The counter's value and the fate of an insert are
        functions of the moment at which they are asked for. */
    method Run(moves: seq<Move>, droppedFn: nat -> int, fault: nat -> Fault) returns (outcome: Outcome, pos: nat)
      requires batch == [] && lastDropped == 0 && batchSize > 0 && BatchesFit(store.batches, Limit())
      modifies this, store
      ensures Going(old(Now()), moves, pos, outcome, fault)
      ensures outcome == Waiting ==> pos == |moves|
    {
      ghost var start := Now();
      GoingFromStart(moves, fault);
      outcome, pos := Waiting, 0;
      while pos < |moves|
        invariant pos <= |moves| && outcome == Waiting && Going(start, moves, pos, Waiting, fault)
        decreases |moves| - pos
      {
        outcome, pos := KeepingTurn(moves, pos, droppedFn, fault, start);
        if outcome != Waiting {
          return;
        }
      }
    }

    /** A turn keeps it going. */
    method KeepingTurn(moves: seq<Move>, at: nat, droppedFn: nat -> int, fault: nat -> Fault, ghost start: Stage)
      returns (outcome: Outcome, pos: nat)
      requires at < |moves| && Going(start, moves, at, Waiting, fault)
      modifies this, store
      ensures at < pos <= |moves| && Going(start, moves, pos, outcome, fault)
    {
      ghost var before := Now();
      outcome, pos := Turn(moves, at, droppedFn, fault);
      TurnKept(before, start, moves, at, pos, droppedFn(pos), outcome);
    }

    /** Whether a move makes the stage write, with n events pending before it. */
    predicate Writes(m: Move, n: nat) {
      match m
      case Deliver(_) => n + 1 >= batchSize
      case Closed => true
      case Idle(tick, cancelled) => tick && !cancelled
    }

    /** The store has one batch more than before, and its events are these. */
    ghost predicate OneBatchMore(batches: seq<seq<Event>>, events: seq<Event>)
      reads this, store
    {
      && |store.batches| == |batches| + 1 && store.batches[..|batches|] == batches
      && Payloads(store.batches[|batches|]) == Payloads(events)
    }

    lemma FlushAddsOne(s: Stage, current: int)
      requires s.batch != [] && Now() == Flushed(s, current, true)
      ensures OneBatchMore(s.batches, s.batch)
    {
      AttributeAdds(s.batch, s.last, current);
    }

    /** The stage after a turn that took the moves from at to pos: it collects what
        it received and either leaves it at that or flushes it. */
    function AfterTurn(s: Stage, moves: seq<Move>, at: nat, pos: nat, current: int, ok: bool): Stage
      requires at < pos <= |moves|
    {
      var c := Collected(s, Between(moves, at, pos));
      if Writes(moves[at], |s.batch|) then Flushed(c, current, ok) else c
    }

    lemma TurnKept(s: Stage, start: Stage, moves: seq<Move>, at: nat, pos: nat, current: int, outcome: Outcome)
      requires at < pos <= |moves|
      requires Kept(s, start, Arrived(moves, at), Limit()) && EndsWith(Arrived(moves, at), s.batch)
      requires |s.batch| + |Between(moves, at, pos)| <= Limit()
      ensures var t := AfterTurn(s, moves, at, pos, current, outcome != Failed);
              && Kept(t, start, Arrived(moves, pos), Limit())
              && (outcome != Failed ==> EndsWith(Arrived(moves, pos), t.batch))
    {
      var more := Between(moves, at, pos);
      BetweenSplit(moves, 0, at, pos);
      CollectKept(s, start, Arrived(moves, at), more, Limit());
      if Writes(moves[at], |s.batch|) {
        FlushKept(Collected(s, more), start, Arrived(moves, pos), current, outcome != Failed, Limit());
      }
    }

    /** One turn of the loop: one case of the select, booking the counter's value at
        the moment of the flush if it flushes. */
    method Turn(moves: seq<Move>, at: nat, droppedFn: nat -> int, fault: nat -> Fault)
      returns (outcome: Outcome, pos: nat)
      requires at < |moves| && |batch| < batchSize
      modifies this, store
      ensures at < pos <= |moves| && |old(batch)| + |Between(moves, at, pos)| <= Limit()
      ensures Now() == AfterTurn(old(Now()), moves, at, pos, droppedFn(pos), outcome != Failed)
      ensures !Writes(moves[at], |old(batch)|) ==> outcome == Waiting && pos == at + 1
      ensures outcome == Waiting ==> OpenBetween(moves, at, pos) && |batch| < batchSize
      ensures outcome == Finished ==> batch == [] && moves[pos - 1] == Closed
      ensures outcome == Failed ==> fault(pos) != Clean
      // a live tick writes what is pending, and the other idle moves do nothing
      ensures moves[at] == Idle(true, false) && outcome != Failed ==>
                && outcome == Waiting && pos == at + 1 && batch == []
                && (old(batch) == [] ==> Now() == old(Now()))
                && (old(batch) != [] ==> OneBatchMore(old(store.batches), old(batch)))
      ensures moves[at] == Idle(false, false) || moves[at] == Idle(false, true) || moves[at] == Idle(true, true) ==>
                outcome == Waiting && pos == at + 1 && Now() == old(Now())
      // an event below the batch size is only kept, and one that reaches it is written
      ensures moves[at].Deliver? && |old(batch)| + 1 < batchSize ==>
                && outcome == Waiting && pos == at + 1
                && batch == old(batch) + [moves[at].ev] && lastDropped == old(lastDropped)
                && store.rows == old(store.rows) && store.batches == old(store.batches)
      ensures moves[at].Deliver? && |old(batch)| + 1 >= batchSize && outcome != Failed ==>
                batch == [] && OneBatchMore(old(store.batches), old(batch) + Between(moves, at, pos))
      // a closed channel writes what is pending and ends the stage
      ensures moves[at] == Closed ==> outcome != Waiting && pos == at + 1
      ensures moves[at] == Closed && outcome == Finished && old(batch) != [] ==>
                OneBatchMore(old(store.batches), old(batch))
    {
      var open, ok := true, true;
      pos := at + 1;
      ghost var before := Now();
      assert Between(moves, at, at) == [];
      match moves[at] {
        case Deliver(_) =>
          open, ok, pos := OnEvent(moves, at, droppedFn, fault);
        case Closed =>
          assert batch + [] == batch;
          open := false;
          ok := Flush(droppedFn(pos), fault(pos));
          if ok && before.batch != [] { FlushAddsOne(before, droppedFn(pos)); }
        case Idle(tick, cancelled) =>
          assert batch + [] == batch;
          if tick && !cancelled {
            ok := Flush(droppedFn(pos), fault(pos));
            if ok && before.batch != [] { FlushAddsOne(before, droppedFn(pos)); }
          }
      }
      outcome := if !ok then Failed else if open then Waiting else Finished;
    }

    /** The ingest case of the select: chunk on size, draining what is ready. */
    method OnEvent(moves: seq<Move>, at: nat, droppedFn: nat -> int, fault: nat -> Fault)
      returns (open: bool, ok: bool, pos: nat)
      requires at < |moves| && moves[at].Deliver? && |batch| < batchSize
      modifies this, store
      ensures at < pos <= |moves| && |old(batch)| + |Between(moves, at, pos)| <= Limit()
      ensures Now() == AfterTurn(old(Now()), moves, at, pos, droppedFn(pos), ok)
      ensures !Writes(moves[at], |old(batch)|) ==> open && ok && pos == at + 1
      ensures if open then OpenBetween(moves, at, pos) && (ok ==> |batch| < batchSize) else moves[pos - 1] == Closed
      ensures !open && ok ==> batch == []
      ensures |old(batch)| + 1 < batchSize ==>
                && open && ok && pos == at + 1
                && batch == old(batch) + [moves[at].ev] && lastDropped == old(lastDropped)
                && store.rows == old(store.rows) && store.batches == old(store.batches)
      ensures |old(batch)| + 1 >= batchSize && ok ==>
                batch == [] && OneBatchMore(old(store.batches), old(batch) + Between(moves, at, pos))
      ensures !ok ==> fault(pos) != Clean
    {
      ghost var before := Now();
      Append(moves[at].ev);
      if |batch| >= batchSize {
        open, ok, pos := ReachChunk(moves, at, droppedFn, fault, before);
      } else {
        FirstOfBetween(moves, at, at + 1);
        assert Between(moves, at + 1, at + 1) == [];
        open, ok, pos := true, true, at + 1;
      }
    }

    /** The event at at has been appended and fills the batch. */
    method ReachChunk(moves: seq<Move>, at: nat, droppedFn: nat -> int, fault: nat -> Fault, ghost before: Stage)
      returns (open: bool, ok: bool, pos: nat)
      requires at < |moves| && moves[at].Deliver? && batchSize <= |batch| <= Limit()
      requires Now() == before.(batch := before.batch + [moves[at].ev])
      modifies this, store
      ensures at < pos <= |moves| && |before.batch| + |Between(moves, at, pos)| <= Limit()
      ensures Now() == Flushed(Collected(before, Between(moves, at, pos)), droppedFn(pos), ok)
      ensures if open then OpenBetween(moves, at, pos) else moves[pos - 1] == Closed
      ensures ok ==> batch == [] && OneBatchMore(before.batches, before.batch + Between(moves, at, pos))
      ensures !ok ==> fault(pos) != Clean
    {
      open, ok, pos := WriteChunk(moves, at + 1, droppedFn, fault);
      FirstOfBetween(moves, at, pos);
      CollectedOneByOne(before, moves[at].ev, Between(moves, at + 1, pos));
      if ok { FlushAddsOne(Collected(before, Between(moves, at, pos)), droppedFn(pos)); }
    }

    /** Drain what is ready, then write. */
    method WriteChunk(moves: seq<Move>, start: nat, droppedFn: nat -> int, fault: nat -> Fault)
      returns (open: bool, ok: bool, pos: nat)
      requires start <= |moves| && |batch| <= Limit()
      modifies this, store
      ensures start <= pos <= |moves| && |old(batch)| + |Between(moves, start, pos)| <= Limit()
      ensures Now() == Flushed(Collected(old(Now()), Between(moves, start, pos)), droppedFn(pos), ok)
      ensures if open then OpenBetween(moves, start, pos) else start < pos && moves[pos - 1] == Closed
      ensures ok ==> batch == []
      ensures !ok ==> fault(pos) != Clean
    {
      open, pos := DrainReady(moves, start);
      ok := Flush(droppedFn(pos), fault(pos));
    }
  }
}
