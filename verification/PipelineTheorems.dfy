/** The main results about runWithSource, for every interleaving of its goroutines. */
module PipelineTheorems {
  import opened Text
  import opened Events
  import opened Pipeline
  import opened PipelineControl
  import opened PipelineLedger
  import Batching
  import KernelDrops

  // ---- nothing is lost silently ----

  /** a is what remains of b after deleting some elements. */
  ghost predicate Subsequence(a: seq<Event>, b: seq<Event>) {
    || a == []
    || (b != [] && Subsequence(a, b[..|b| - 1]))
    || (b != [] && a[|a| - 1] == b[|b| - 1] && Subsequence(a[..|a| - 1], b[..|b| - 1]))
  }

  lemma {:induction false} SubsequenceAppend(a: seq<Event>, b: seq<Event>, x: seq<Event>)
    requires Subsequence(a, b)
    ensures Subsequence(a + x, b + x)
  {
    if x == [] {
      assert a + x == a && b + x == b;
    } else {
      SubsequenceAppend(a, b, x[..|x| - 1]);
      assert (a + x)[..|a + x| - 1] == a + x[..|x| - 1];
      assert (b + x)[..|b + x| - 1] == b + x[..|x| - 1];
    }
  }

  lemma {:induction false} AcceptedSubsequence(hs: seq<Handled>)
    ensures Subsequence(Payloads(WithFate(hs, Accepted)), Payloads(HandledEvents(hs)))
  {
    if hs != [] {
      var before, h := hs[..|hs| - 1], hs[|hs| - 1];
      assert hs == before + [h];
      AcceptedSubsequence(before);
      HandledSnoc(before, h);
      Snoc(HandledEvents(before), h.ev);
      var p := Payloads(HandledEvents(before)) + [Payload(h.ev)];
      assert p[..|p| - 1] == Payloads(HandledEvents(before));
      if h.fate == Accepted {
        Snoc(WithFate(before, Accepted), h.ev);
        var q := Payloads(WithFate(before, Accepted)) + [Payload(h.ev)];
        assert q[..|q| - 1] == Payloads(WithFate(before, Accepted));
      }
    }
  }

  lemma {:induction false} FatesPartition(hs: seq<Handled>)
    ensures |HandledEvents(hs)| == |WithFate(hs, Accepted)| + |WithFate(hs, Ignored)| + |WithFate(hs, Overflowed)|
    ensures DropSum(HandledEvents(hs)) ==
            DropSum(WithFate(hs, Accepted)) + DropSum(WithFate(hs, Ignored)) + DropSum(WithFate(hs, Overflowed))
  {
    if hs != [] {
      var before, h := hs[..|hs| - 1], hs[|hs| - 1];
      FatesPartition(before);
      Snoc(HandledEvents(before), h.ev);
      Snoc(WithFate(before, h.fate), h.ev);
    }
  }

  /** Everything the source sent that has not been ignored or dropped, wherever it is. */
  function Present(s: State): seq<Event> { s.store + Held(s) + s.ingest + Hand(s) + s.input }

  lemma PresentIsBooked(s: State)
    ensures Present(s) == Books(s).kept + Books(s).ahead
  {
    var kept := s.store + Held(s) + s.ingest;
    assert kept + Hand(s) + s.input == kept + (Hand(s) + s.input);
  }

  lemma PresentInOrder(b: Accounts, ignored: Event -> bool)
    requires EventsBalance(ignored, b)
    ensures Subsequence(Payloads(b.kept + b.ahead), Payloads(b.sent))
  {
    PayloadsConcat(b.kept, b.ahead);
    PayloadsConcat(HandledEvents(b.handled), b.ahead);
    AcceptedSubsequence(b.handled);
    SubsequenceAppend(Payloads(b.kept), Payloads(HandledEvents(b.handled)), Payloads(b.ahead));
  }

  lemma AbsentCounted(b: Accounts, ignored: Event -> bool)
    requires EventsBalance(ignored, b)
    ensures |b.sent| == |b.kept + b.ahead| + |WithFate(b.handled, Ignored)| + |WithFate(b.handled, Overflowed)|
  {
    FatesPartition(b.handled);
    PayloadsAt(b.kept);
    PayloadsAt(WithFate(b.handled, Accepted));
  }

  /** In every state of every interleaving, also after a failed insert: what is
      present is what was sent, in order and without repetition, less the ignored
      events and exactly as many others as the counter has or is about to count. */
  lemma {:induction false} NothingLostSilently(c: Config, schedule: seq<Action>, s: State)
    requires ValidConfig(c) && Run(c, Init(), schedule) == Some(s)
    ensures Subsequence(Payloads(Present(s)), Payloads(s.sent))
    ensures |s.sent| == |Present(s)| + |WithFate(s.handled, Ignored)| + s.dropped + Uncounted(s)
    ensures forall h | h in s.handled :: h.fate == Ignored <==> c.ignored(h.ev)
  {
    BalancedAlways(c, schedule);
    PresentIsBooked(s);
    PresentInOrder(Books(s), c.ignored);
    AbsentCounted(Books(s), c.ignored);
  }

  /** The kernel's deltas that went down with the event they rode on. */
  function Discarded(s: State): int {
    DropSum(WithFate(s.handled, Ignored)) + DropSum(WithFate(s.handled, Overflowed))
  }

  /** The losses an overflow left unbooked for good: a drop that was counted after
      the last sample. */
  function Residue(s: State): nat { if s.late then 1 else 0 }

  /** An accepted event on which the next sample can book. */
  predicate Carrier(s: State) {
    s.ingest != [] || (s.batch != [] && (s.flu.Waiting? || s.flu.Gathering? || s.flu.Sampling?))
  }

  lemma BookedSum(b: Accounts, ignored: Event -> bool)
    requires EventsBalance(ignored, b) && LossesBalance(b)
    ensures DropSum(b.kept + b.ahead) +
            DropSum(WithFate(b.handled, Ignored)) + DropSum(WithFate(b.handled, Overflowed)) ==
            DropSum(b.sent) + b.booked
  {
    DropSumConcat(b.kept, b.ahead);
    DropSumConcat(HandledEvents(b.handled), b.ahead);
    FatesPartition(b.handled);
  }

  /** The conservation law of losses, in every state of every interleaving: what
      is booked on present events is the kernel's deltas, less the discarded ones,
      plus what was sampled from the counter; and a counted drop that is not
      booked yet still has an event to be booked on, but for the residue. */
  lemma {:induction false} LossesConserved(c: Config, schedule: seq<Action>, s: State)
    requires ValidConfig(c) && Run(c, Init(), schedule) == Some(s)
    ensures DropSum(Present(s)) + Discarded(s) == DropSum(s.sent) + s.lastDropped
    ensures |WithFate(s.handled, Overflowed)| == s.dropped + Uncounted(s)
    ensures 0 <= s.lastDropped <= s.dropped
    ensures s.dropped > s.lastDropped ==> Carrier(s) || s.dropped == s.lastDropped + Residue(s)
    ensures c.fused ==> Residue(s) == 0
  {
    BalancedAlways(c, schedule);
    PresentIsBooked(s);
    BookedSum(Books(s), c.ignored);
    assert Carrier(s) || Sampled(s);
  }

  /** Batch, booked count and rows, as the batcher's theory looks at them. */
  function StageOf(s: State): Batching.Stage { Batching.Stage(s.batch, s.lastDropped, s.store, []) }

  /** Sampling, inserting and clearing with nothing in between is one flush. */
  lemma ThreeStepsAreOneFlush(c: Config, s: State, ok: bool)
    requires FluEnabled(c, s, FluSample)
    ensures var t := FluStep(c, s, FluSample);
            FluEnabled(c, t, FluInsert(ok)) &&
            var u := FluStep(c, t, FluInsert(ok));
            (ok ==> FluEnabled(c, u, FluClear)) &&
            var v := if ok then FluStep(c, u, FluClear) else u;
            StageOf(v) == Batching.Flushed(StageOf(s), s.dropped, ok).(batches := [])
  {
    var b := Attribute(s.batch, s.lastDropped, s.dropped);
    var t := FluStep(c, s, FluSample);
    var booked := Booked(s.lastDropped, s.dropped);
    assert t == s.(flu := Inserting(s.flu.next), late := false, batch := b, lastDropped := booked);
    var u := FluStep(c, t, FluInsert(ok));
    if ok {
      assert u == t.(flu := Clearing(s.flu.next), store := s.store + b);
      assert StageOf(FluStep(c, u, FluClear)) == StageOf(u).(batch := []);
    } else {
      assert u == t.(flu := Exited(Err), flushErr := u.flushErr);
    }
  }

  // ---- shutdown ----

  /** Success of the flush stage comes after the collector has been joined. */
  lemma FlushSucceedsLast(c: Config, schedule: seq<Action>, s: State)
    requires ValidConfig(c) && Run(c, Init(), schedule) == Some(s) && s.flu == Exited(Ok)
    ensures CollectorJoined(s.main) && s.col.Stopped? && s.src.Posted? && s.ingestClosed && s.ingest == []
    ensures s.sent == HandledEvents(s.handled)
  {
    ControlAlways(c, schedule);
    BalancedAlways(c, schedule);
    assert HandledEvents(s.handled) + ([] + []) == HandledEvents(s.handled);
  }

  /** When runWithSource returns, no goroutine is left behind, and it returns an
      error exactly when the source broke or an insert failed. */
  lemma ReturnTellsTheTruth(c: Config, schedule: seq<Action>, s: State)
    requires ValidConfig(c) && Run(c, Init(), schedule) == Some(s) && s.main.Done?
    ensures s.src.Posted? && s.col.Stopped? && s.flu.Exited?
    ensures s.main.err == Err <==> s.src.end == Broken || s.flu.r == Err
  {
    ControlAlways(c, schedule);
  }

  /** A nil return: every accepted event is in the store, in order, and the
      store's SUM(dropped_before) is every overflow but at most one, plus every
      kernel delta but those that rode on ignored or overflowed events. */
  lemma {:induction false} CleanShutdown(c: Config, schedule: seq<Action>, s: State)
    requires ValidConfig(c) && Run(c, Init(), schedule) == Some(s) && s.main == Done(Ok)
    ensures s.sent == HandledEvents(s.handled)
    ensures Payloads(s.store) == Payloads(WithFate(s.handled, Accepted))
    ensures |WithFate(s.handled, Overflowed)| == s.dropped == s.lastDropped + Residue(s)
    ensures DropSum(s.store) + Residue(s) ==
            |WithFate(s.handled, Overflowed)| + DropSum(s.sent) - Discarded(s)
    ensures c.fused ==> Residue(s) == 0
  {
    ControlAlways(c, schedule);
    BalancedAlways(c, schedule);
    FatesPartition(s.handled);
    assert s.store + Held(s) + s.ingest == s.store;
    assert HandledEvents(s.handled) + ([] + []) == HandledEvents(s.handled);
  }

  ghost predicate NoNegativeDelta(es: seq<Event>) { forall e | e in es :: e.droppedBefore >= 0 }

  lemma {:induction false} ZeroSum(es: seq<Event>)
    requires NoNegativeDelta(es)
    ensures DropSum(es) >= 0
    ensures DropSum(es) == 0 <==> forall e | e in es :: e.droppedBefore == 0
  {
    if es != [] {
      var n := |es| - 1;
      assert forall e :: e in es <==> e in es[..n] || e == es[n];
      ZeroSum(es[..n]);
    }
  }

  lemma {:induction false} FateMembers(hs: seq<Handled>, f: Fate)
    ensures forall e :: e in WithFate(hs, f) <==> Handled(e, f) in hs
    ensures forall h | h in hs :: h.ev in HandledEvents(hs)
  {
    if hs != [] {
      var n := |hs| - 1;
      assert forall h :: h in hs <==> h in hs[..n] || h == hs[n];
      FateMembers(hs[..n], f);
    }
  }

  lemma NothingDiscarded(hs: seq<Handled>, f: Fate)
    requires NoNegativeDelta(HandledEvents(hs))
    ensures DropSum(WithFate(hs, f)) >= 0
    ensures DropSum(WithFate(hs, f)) == 0 <==> forall h | h in hs && h.fate == f :: h.ev.droppedBefore == 0
  {
    FateMembers(hs, f);
    forall e | e in WithFate(hs, f) ensures e.droppedBefore >= 0 {
      assert Handled(e, f) in hs;
    }
    ZeroSum(WithFate(hs, f));
    if forall e | e in WithFate(hs, f) :: e.droppedBefore == 0 {
      forall h | h in hs && h.fate == f ensures h.ev.droppedBefore == 0 {
        assert Handled(h.ev, f) in hs;
      }
    }
  }

  /** The total docs/architecture.md promises: kernel loss and overflow are both
      booked on stored rows. */
  predicate DocumentedTotal(s: State) {
    DropSum(s.store) == |WithFate(s.handled, Overflowed)| + DropSum(s.sent)
  }

  /** At a nil return the documented total is reached exactly when what was
      discarded and what was counted too late cancel out.  A reading of the kernel's
      counter that falls gives a negative delta; where there is none, it takes
      that every delta rode on an accepted event and no drop came too late. */
  lemma {:induction false} DocumentedTotalExactly(c: Config, schedule: seq<Action>, s: State)
    requires ValidConfig(c) && Run(c, Init(), schedule) == Some(s) && s.main == Done(Ok)
    ensures DocumentedTotal(s) <==> Discarded(s) + Residue(s) == 0
    ensures NoNegativeDelta(s.sent) ==>
              (DocumentedTotal(s) <==>
               !s.late && forall h | h in s.handled && h.fate != Accepted :: h.ev.droppedBefore == 0)
  {
    CleanShutdown(c, schedule, s);
    if NoNegativeDelta(s.sent) {
      NothingDiscarded(s.handled, Ignored);
      NothingDiscarded(s.handled, Overflowed);
    }
  }

  /** The events carry the deltas the source computed from the kernel's counter. */
  ghost predicate CarriesDeltas(es: seq<Event>, deltas: seq<int>) {
    |es| == |deltas| && forall i | 0 <= i < |es| :: es[i].droppedBefore == deltas[i]
  }

  lemma {:induction false} DeltaSum(es: seq<Event>, deltas: seq<int>)
    requires CarriesDeltas(es, deltas)
    ensures DropSum(es) == KernelDrops.Sum(deltas)
  {
    if es != [] {
      DeltaSum(es[..|es| - 1], deltas[..|deltas| - 1]);
    }
  }

  /** From the kernel's counter to the store: at a nil return SUM(dropped_before)
      is the overflows but for the residue, plus the last reading of the kernel's
      counter that was attached to an event, less the discarded deltas. */
  lemma KernelLossReachesTheStore(c: Config, schedule: seq<Action>, s: State, records: seq<KernelDrops.Record>)
    requires ValidConfig(c) && Run(c, Init(), schedule) == Some(s) && s.main == Done(Ok)
    requires CarriesDeltas(s.sent, KernelDrops.Deltas(records, |records|))
    requires KernelDrops.ReadingsBelow(records, |records|, KernelDrops.TWO_63)
    ensures DropSum(s.store) + Residue(s) + Discarded(s) ==
            |WithFate(s.handled, Overflowed)| + KernelDrops.LastReading(records, |records|)
  {
    CleanShutdown(c, schedule, s);
    DeltaSum(s.sent, KernelDrops.Deltas(records, |records|));
    KernelDrops.DeltasTelescope(records, |records|);
  }
}
