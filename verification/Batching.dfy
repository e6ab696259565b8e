/** What batching does to the events that arrive, without the goroutine around it:
    the flush stage's batch and booked count and the store's rows as one value. */
module Batching {
  import opened Events

  /** What the flush stage and the store hold; batches has one entry per committed
      transaction. */
  datatype Stage = Stage(batch: seq<Event>, last: int, rows: seq<Event>, batches: seq<seq<Event>>)

  function Collected(s: Stage, es: seq<Event>): Stage { s.(batch := s.batch + es) }

  /** One flush: nothing for an empty batch; otherwise the drops counted since the
      last flush are booked on its first event, and the batch becomes rows or, if
      the write fails, stays as it was booked. */
  function Flushed(s: Stage, current: int, ok: bool): Stage {
    if s.batch == [] then s else
      var written := Attribute(s.batch, s.last, current);
      if ok then Stage([], Booked(s.last, current), s.rows + written, s.batches + [written])
      else s.(batch := written, last := Booked(s.last, current))
  }

  // ---- nothing is lost, repeated or reordered, and the losses add up ----

  /** Rows and batch are the rows there were before and what was received, and the
      losses booked are the kernel's plus the counter's. */
  ghost predicate Accounts(s: Stage, rows0: seq<Event>, received: seq<Event>) {
    && Payloads(s.rows + s.batch) == Payloads(rows0 + received)
    && DropSum(s.rows + s.batch) == DropSum(rows0 + received) + s.last
  }

  lemma CollectAccounts(s: Stage, rows0: seq<Event>, received: seq<Event>, more: seq<Event>)
    requires Accounts(s, rows0, received)
    ensures Accounts(Collected(s, more), rows0, received + more)
  {
    assert s.rows + (s.batch + more) == (s.rows + s.batch) + more;
    assert rows0 + (received + more) == (rows0 + received) + more;
    PayloadsConcat(s.rows + s.batch, more);
    PayloadsConcat(rows0 + received, more);
    DropSumConcat(s.rows + s.batch, more);
    DropSumConcat(rows0 + received, more);
  }

  lemma FlushAccounts(s: Stage, rows0: seq<Event>, received: seq<Event>, current: int, ok: bool)
    requires Accounts(s, rows0, received)
    ensures Accounts(Flushed(s, current, ok), rows0, received)
  {
    if s.batch != [] {
      var b := Attribute(s.batch, s.last, current);
      AttributeAdds(s.batch, s.last, current);
      PayloadsConcat(s.rows, s.batch);
      PayloadsConcat(s.rows, b);
      DropSumConcat(s.rows, s.batch);
      DropSumConcat(s.rows, b);
      assert (s.rows + b) + [] == s.rows + b;
    }
  }

  // ---- the batches are what was received, cut into pieces ----

  function Concat(batches: seq<seq<Event>>): seq<Event> {
    if batches == [] then [] else Concat(batches[..|batches| - 1]) + batches[|batches| - 1]
  }

  /** The same events, except that losses may have been booked on the first. */
  predicate SameButHead(a: seq<Event>, b: seq<Event>) {
    |a| == |b| && (a != [] ==> Payload(a[0]) == Payload(b[0]) && a[1..] == b[1..])
  }

  /** The batches are the received events cut into pieces, each changed at most at
      its head. */
  predicate Cut(batches: seq<seq<Event>>, received: seq<Event>)
    decreases |batches|
  {
    if batches == [] then received == [] else
      var last := batches[|batches| - 1];
      var n := |received| - |last|;
      n >= 0 && SameButHead(last, received[n..]) && Cut(batches[..|batches| - 1], received[..n])
  }

  /** The batches and the pending one together are the cut of what was received. */
  predicate Batched(batches: seq<seq<Event>>, pending: seq<Event>, received: seq<Event>) {
    var n := |received| - |pending|;
    n >= 0 && SameButHead(pending, received[n..]) && Cut(batches, received[..n])
  }

  predicate EndsWith(s: seq<Event>, tail: seq<Event>) {
    |tail| <= |s| && s[|s| - |tail|..] == tail
  }

  /** The rows are those there were before and the batches written since. */
  ghost predicate InOrder(s: Stage, rows0: seq<Event>, batches0: seq<seq<Event>>, received: seq<Event>) {
    && batches0 <= s.batches
    && s.rows == rows0 + Concat(s.batches[|batches0|..])
    && Batched(s.batches[|batches0|..], s.batch, received)
  }

  lemma CollectKeepsCut(batches: seq<seq<Event>>, pending: seq<Event>, received: seq<Event>, more: seq<Event>)
    requires Batched(batches, pending, received) && EndsWith(received, pending)
    ensures Batched(batches, pending + more, received + more) && EndsWith(received + more, pending + more)
  {
    var n := |received| - |pending|;
    assert (received + more)[n..] == pending + more;
    assert (received + more)[..n] == received[..n];
  }

  lemma FlushKeepsCut(batches: seq<seq<Event>>, pending: seq<Event>, received: seq<Event>, w: seq<Event>)
    requires Batched(batches, pending, received) && EndsWith(received, pending) && SameButHead(w, pending)
    ensures Batched(batches, w, received)
    ensures Batched(batches + [w], [], received)
  {
    assert (batches + [w])[..|batches|] == batches;
    assert received[..|received|] == received && received[|received|..] == [];
  }

  lemma ConcatSnoc(batches: seq<seq<Event>>, w: seq<Event>)
    ensures Concat(batches + [w]) == Concat(batches) + w
  {
    assert (batches + [w])[..|batches|] == batches;
  }

  lemma CommitInOrder(s: Stage, rows0: seq<Event>, batches0: seq<seq<Event>>, received: seq<Event>,
                      w: seq<Event>, last: int)
    requires InOrder(s, rows0, batches0, received) && EndsWith(received, s.batch) && SameButHead(w, s.batch)
    ensures InOrder(Stage([], last, s.rows + w, s.batches + [w]), rows0, batches0, received)
  {
    var written := s.batches[|batches0|..];
    FlushKeepsCut(written, s.batch, received, w);
    ConcatSnoc(written, w);
    assert (s.batches + [w])[|batches0|..] == written + [w];
    assert rows0 + Concat(written) + w == rows0 + (Concat(written) + w);
  }

  lemma FlushInOrder(s: Stage, rows0: seq<Event>, batches0: seq<seq<Event>>, received: seq<Event>,
                     current: int, ok: bool)
    requires InOrder(s, rows0, batches0, received) && EndsWith(received, s.batch)
    ensures InOrder(Flushed(s, current, ok), rows0, batches0, received)
    ensures ok ==> EndsWith(received, Flushed(s, current, ok).batch)
  {
    if s.batch != [] {
      var w := Attribute(s.batch, s.last, current);
      assert SameButHead(w, s.batch);
      if ok {
        CommitInOrder(s, rows0, batches0, received, w, Booked(s.last, current));
        assert received[|received|..] == [];
      } else {
        FlushKeepsCut(s.batches[|batches0|..], s.batch, received, w);
      }
    }
  }

  // ---- all of it, for one turn of the flush stage ----

  ghost predicate BatchesFit(batches: seq<seq<Event>>, limit: nat) {
    forall k | 0 <= k < |batches| :: 1 <= |batches[k]| <= limit
  }

  /** What holds of the stage when received has arrived. */
  ghost predicate Kept(s: Stage, before: Stage, received: seq<Event>, limit: nat) {
    && Accounts(s, before.rows, received)
    && InOrder(s, before.rows, before.batches, received)
    && BatchesFit(s.batches, limit)
  }

  lemma StartKept(s: Stage, limit: nat)
    requires s.batch == [] && s.last == 0 && BatchesFit(s.batches, limit)
    ensures Kept(s, s, [], limit) && EndsWith([], s.batch)
  {
    assert s.rows + [] == s.rows && s.batches[|s.batches|..] == [];
  }

  lemma CollectKept(s: Stage, before: Stage, received: seq<Event>, more: seq<Event>, limit: nat)
    requires Kept(s, before, received, limit) && EndsWith(received, s.batch)
    ensures Kept(Collected(s, more), before, received + more, limit)
    ensures EndsWith(received + more, Collected(s, more).batch)
  {
    CollectAccounts(s, before.rows, received, more);
    CollectKeepsCut(s.batches[|before.batches|..], s.batch, received, more);
  }

  lemma FlushKept(s: Stage, before: Stage, received: seq<Event>, current: int, ok: bool, limit: nat)
    requires Kept(s, before, received, limit) && EndsWith(received, s.batch) && |s.batch| <= limit
    ensures Kept(Flushed(s, current, ok), before, received, limit)
    ensures ok ==> EndsWith(received, Flushed(s, current, ok).batch)
  {
    FlushAccounts(s, before.rows, received, current, ok);
    FlushInOrder(s, before.rows, before.batches, received, current, ok);
  }
}
