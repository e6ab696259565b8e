/** What every step of the pipeline keeps about the events and the losses.

    The ledger is an abstraction of the pipeline: it forgets which goroutine holds
    an event and remembers only whether the collector has decided about it.  Most
    steps change nothing in it; the four that do keep it balanced. */
module PipelineLedger {
  import opened Text
  import opened Events
  import opened Pipeline
  import opened PipelineControl

  datatype Accounts = Accounts(
    sent: seq<Event>,          // by the source
    handled: seq<Handled>,     // by the collector
    ahead: seq<Event>,         // still before the collector's decision
    kept: seq<Event>,          // accepted: in the store, the batch or the queue
    sampled: bool,             // no accepted event awaits a sample of the counter
    booked: int, counted: nat, uncounted: nat,
    late: bool)

  function Books(s: State): Accounts {
    Accounts(s.sent, s.handled, Hand(s) + s.input, s.store + Held(s) + s.ingest, Sampled(s),
             s.lastDropped, s.dropped, Uncounted(s), s.late)
  }

  /** Every event sent is still ahead of the collector or decided; the accepted
      ones are all kept, in order; and the rest were ignored or overflowed. */
  ghost predicate EventsBalance(ignored: Event -> bool, b: Accounts) {
    && b.sent == HandledEvents(b.handled) + b.ahead
    && Payloads(b.kept) == Payloads(WithFate(b.handled, Accepted))
    && Filtered(ignored, b.handled)
  }

  ghost predicate Filtered(ignored: Event -> bool, handled: seq<Handled>) {
    forall i | 0 <= i < |handled| :: handled[i].fate == Ignored <==> ignored(handled[i].ev)
  }

  /** Each loss is booked or owed.  A kernel delta travels on its event; a counted
      overflow is booked by the next sample that finds an event to book it on. */
  ghost predicate LossesBalance(b: Accounts) {
    && DropSum(b.kept) == DropSum(WithFate(b.handled, Accepted)) + b.booked
    && |WithFate(b.handled, Overflowed)| == b.counted + b.uncounted
  }

  /** What is owed: nothing, unless an accepted event is still to be sampled, or
      the last drop was counted after the last sample. */
  ghost predicate DebtBounded(fused: bool, b: Accounts) {
    && 0 <= b.booked <= b.counted
    && b.uncounted <= 1
    && (b.late || b.uncounted > 0 ==> !fused)
    && (b.sampled ==> b.counted - b.booked == if b.late then 1 else 0)
    && (b.sampled && b.uncounted > 0 ==> !b.late)
  }

  ghost predicate Balanced(c: Config, b: Accounts) {
    EventsBalance(c.ignored, b) && LossesBalance(b) && DebtBounded(c.fused, b)
  }

  // ---- the ledger's own steps ----

  function Sent(b: Accounts, ev: Event): Accounts {
    b.(sent := b.sent + [ev], ahead := b.ahead + [ev])
  }

  function Decided(c: Config, b: Accounts, fate: Fate): Accounts
    requires b.ahead != []
  {
    var ev := b.ahead[0];
    var r := b.(ahead := b.ahead[1..], handled := b.handled + [Handled(ev, fate)]);
    match fate
    case Ignored => r
    case Accepted => r.(kept := b.kept + [ev], sampled := false)
    case Overflowed => if c.fused then r.(counted := b.counted + 1) else r.(uncounted := b.uncounted + 1)
  }

  function Counted(b: Accounts): Accounts
    requires b.uncounted > 0
  {
    b.(counted := b.counted + 1, uncounted := b.uncounted - 1, late := b.sampled)
  }

  lemma SentBalanced(c: Config, b: Accounts, ev: Event)
    requires Balanced(c, b)
    ensures Balanced(c, Sent(b, ev))
  {
    assert HandledEvents(b.handled) + (b.ahead + [ev]) == (HandledEvents(b.handled) + b.ahead) + [ev];
  }

  lemma HandledSnoc(hs: seq<Handled>, h: Handled)
    ensures HandledEvents(hs + [h]) == HandledEvents(hs) + [h.ev]
    ensures h.fate == Accepted ==> WithFate(hs + [h], Accepted) == WithFate(hs, Accepted) + [h.ev]
    ensures h.fate != Accepted ==> WithFate(hs + [h], Accepted) == WithFate(hs, Accepted)
    ensures |WithFate(hs + [h], Overflowed)| == |WithFate(hs, Overflowed)| + if h.fate == Overflowed then 1 else 0
  {
    assert (hs + [h])[..|hs|] == hs;
  }

  lemma DecidedEvents(c: Config, b: Accounts, fate: Fate)
    requires EventsBalance(c.ignored, b) && b.ahead != [] && (fate == Ignored <==> c.ignored(b.ahead[0]))
    ensures EventsBalance(c.ignored, Decided(c, b, fate))
  {
    var ev := b.ahead[0];
    HandledSnoc(b.handled, Handled(ev, fate));
    assert Filtered(c.ignored, b.handled + [Handled(ev, fate)]);
    assert HandledEvents(b.handled) + [ev] + b.ahead[1..] == HandledEvents(b.handled) + b.ahead;
    if fate == Accepted {
      Snoc(b.kept, ev);
      Snoc(WithFate(b.handled, Accepted), ev);
    }
  }

  lemma DecidedLosses(c: Config, b: Accounts, fate: Fate)
    requires LossesBalance(b) && b.ahead != []
    ensures LossesBalance(Decided(c, b, fate))
  {
    var ev := b.ahead[0];
    HandledSnoc(b.handled, Handled(ev, fate));
    Snoc(b.kept, ev);
    Snoc(WithFate(b.handled, Accepted), ev);
  }

  lemma DecidedBalanced(c: Config, b: Accounts, fate: Fate)
    requires Balanced(c, b) && b.ahead != [] && (fate == Ignored <==> c.ignored(b.ahead[0]))
    requires fate == Overflowed ==> !b.sampled && b.uncounted == 0
    ensures Balanced(c, Decided(c, b, fate))
  {
    DecidedEvents(c, b, fate);
    DecidedLosses(c, b, fate);
    assert DebtBounded(c.fused, Decided(c, b, fate));
  }

  lemma CountedBalanced(c: Config, b: Accounts)
    requires Balanced(c, b) && b.uncounted > 0
    ensures Balanced(c, Counted(b))
  {}

  /** Booking on the kept events exactly what was counted since the last time. */
  lemma BookedBalanced(c: Config, b: Accounts, kept: seq<Event>, sampled: bool)
    requires Balanced(c, b) && Payloads(kept) == Payloads(b.kept)
    requires DropSum(kept) == DropSum(b.kept) + b.counted - b.booked
    ensures Balanced(c, b.(kept := kept, sampled := sampled, booked := b.counted, late := false))
  {}

  lemma Snoc(es: seq<Event>, e: Event)
    ensures Payloads(es + [e]) == Payloads(es) + [Payload(e)]
    ensures DropSum(es + [e]) == DropSum(es) + e.droppedBefore
  {
    assert (es + [e])[..|es|] == es;
  }

  lemma SplitThree(a: seq<Event>, b: seq<Event>, d: seq<Event>)
    ensures Payloads(a + b + d) == Payloads(a) + Payloads(b) + Payloads(d)
    ensures DropSum(a + b + d) == DropSum(a) + DropSum(b) + DropSum(d)
  {
    PayloadsConcat(a + b, d);
    PayloadsConcat(a, b);
    DropSumConcat(a + b, d);
    DropSumConcat(a, b);
  }

  // ---- the pipeline's steps, seen by the ledger ----

  lemma SrcBooks(c: Config, s: State, a: Action)
    requires SrcEnabled(c, s, a)
    ensures Books(SrcStep(c, s, a)) == if a.SrcSend? then Sent(Books(s), a.ev) else Books(s)
  {
    if a.SrcSend? {
      assert Hand(s) + (s.input + [a.ev]) == (Hand(s) + s.input) + [a.ev];
    }
  }

  lemma HandBooks(s: State)
    requires s.col.Holding?
    ensures Books(s).ahead != [] && Books(s).ahead[0] == s.col.ev && Books(s).ahead[1..] == s.input
  {
    assert ([s.col.ev] + s.input)[1..] == s.input;
  }

  lemma AcceptBooks(c: Config, s: State)
    requires s.col.Holding? && !s.ingestClosed && Decision(c, s) == Accepted
    ensures Books(s).ahead != []
    ensures Books(Forward(c, s)) == Decided(c, Books(s), Accepted)
  {
    HandBooks(s);
    var t := Forward(c, s);
    assert t == s.(col := Resume(s.col.draining), ingest := s.ingest + [s.col.ev],
                   handled := s.handled + [Handled(s.col.ev, Accepted)]);
    assert Hand(t) + t.input == s.input;
    assert t.store + Held(t) + t.ingest == (s.store + Held(s) + s.ingest) + [s.col.ev];
  }

  lemma RefuseBooks(c: Config, s: State)
    requires s.col.Holding? && !s.ingestClosed && Decision(c, s) != Accepted
    ensures Books(s).ahead != []
    ensures Books(Forward(c, s)) == Decided(c, Books(s), Decision(c, s))
  {
    HandBooks(s);
    var t := Forward(c, s);
    assert t == s.(col := t.col, dropped := t.dropped, handled := s.handled + [Handled(s.col.ev, Decision(c, s))]);
    assert !t.col.Holding?;
    assert Hand(t) + t.input == s.input;
  }

  lemma ForwardBooks(c: Config, s: State)
    requires s.col.Holding? && !s.ingestClosed
    ensures Books(s).ahead != [] && Books(s).ahead[0] == s.col.ev
    ensures Books(Forward(c, s)) == Decided(c, Books(s), Decision(c, s))
  {
    HandBooks(s);
    if Decision(c, s) == Accepted { AcceptBooks(c, s); } else { RefuseBooks(c, s); }
  }

  lemma TakeBooks(c: Config, s: State)
    requires ColEnabled(c, s, ColReceive)
    ensures Books(ColStep(c, s, ColReceive)) == Books(s)
  {
    var t := ColStep(c, s, ColReceive);
    assert t == s.(col := t.col, input := s.input[1..]);
    assert Hand(t) + t.input == [s.input[0]] + s.input[1..] == s.input == Hand(s) + s.input;
  }

  lemma CountBooks(c: Config, s: State)
    requires ColEnabled(c, s, ColCount)
    ensures Books(ColStep(c, s, ColCount)) == Counted(Books(s))
  {
    var t := ColStep(c, s, ColCount);
    assert t == s.(col := t.col, dropped := s.dropped + 1, late := Sampled(s));
  }

  lemma ColBooks(c: Config, s: State, a: Action)
    requires ColEnabled(c, s, a) && !a.ColForward?
    ensures Books(ColStep(c, s, a)) == if a.ColCount? then Counted(Books(s)) else Books(s)
  {
    match a
    case ColReceive => TakeBooks(c, s);
    case ColCount => CountBooks(c, s);
    case ColFinish => assert Hand(ColStep(c, s, a)) == Hand(s);
    case _ =>
  }

  lemma ReceiveBooks(c: Config, s: State)
    requires FluEnabled(c, s, FluReceive)
    ensures Books(FluStep(c, s, FluReceive)) == Books(s)
  {
    var t := FluStep(c, s, FluReceive);
    assert s.ingest == [s.ingest[0]] + t.ingest;
    assert t.store + t.batch + t.ingest == s.store + s.batch + s.ingest;
  }

  lemma InsertBooks(c: Config, s: State, ok: bool)
    requires FluEnabled(c, s, FluInsert(ok))
    ensures Books(FluStep(c, s, FluInsert(ok))) == Books(s)
  {
    assert (s.store + s.batch) + [] + s.ingest == s.store + s.batch + s.ingest;
  }

  lemma ClearBooks(c: Config, s: State)
    requires FluEnabled(c, s, FluClear)
    ensures Books(FluStep(c, s, FluClear)) == Books(s)
  {
    var t := FluStep(c, s, FluClear);
    if s.flu.next.Loop? {
      assert t == s.(flu := Waiting, batch := []);
    } else {
      assert t == s.(flu := Exited(Ok), flushErr := t.flushErr, batch := []);
    }
  }

  lemma FluBooks(c: Config, s: State, a: Action)
    requires FluEnabled(c, s, a) && !a.FluSample?
    ensures Books(FluStep(c, s, a)) == Books(s)
  {
    match a
    case FluReceive => ReceiveBooks(c, s);
    case FluInsert(ok) => InsertBooks(c, s, ok);
    case FluClear => ClearBooks(c, s);
    case _ =>
  }

  lemma SampleBooks(c: Config, s: State)
    requires FluEnabled(c, s, FluSample)
    ensures var t := FluStep(c, s, FluSample);
            Books(t) == Books(s).(kept := s.store + Attribute(s.batch, s.lastDropped, s.dropped) + s.ingest,
                                  sampled := s.ingest == [], booked := Booked(s.lastDropped, s.dropped), late := false)
  {}

  /** A sample books everything counted so far on the batch's first event. */
  lemma SampleBalanced(c: Config, s: State)
    requires Balanced(c, Books(s)) && FluEnabled(c, s, FluSample)
    ensures Balanced(c, Books(FluStep(c, s, FluSample)))
  {
    var b := Attribute(s.batch, s.lastDropped, s.dropped);
    AttributeAdds(s.batch, s.lastDropped, s.dropped);
    SplitThree(s.store, s.batch, s.ingest);
    SplitThree(s.store, b, s.ingest);
    SampleBooks(c, s);
    BookedBalanced(c, Books(s), s.store + b + s.ingest, s.ingest == []);
  }

  lemma ColBalanced(c: Config, s: State, a: Action)
    requires c.ingestCap > 0 && |s.ingest| <= c.ingestCap && (s.col.Holding? ==> !s.ingestClosed)
    requires Balanced(c, Books(s)) && ColEnabled(c, s, a)
    ensures Balanced(c, Books(ColStep(c, s, a)))
  {
    var b := Books(s);
    if a.ColForward? {
      ForwardBooks(c, s);
      DecidedBalanced(c, b, Decision(c, s));
    } else {
      ColBooks(c, s, a);
      if a.ColCount? { CountedBalanced(c, b); }
    }
  }

  lemma SrcBalanced(c: Config, s: State, a: Action)
    requires Balanced(c, Books(s)) && SrcEnabled(c, s, a)
    ensures Balanced(c, Books(SrcStep(c, s, a)))
  {
    SrcBooks(c, s, a);
    if a.SrcSend? { SentBalanced(c, Books(s), a.ev); }
  }

  lemma FluBalanced(c: Config, s: State, a: Action)
    requires Balanced(c, Books(s)) && FluEnabled(c, s, a)
    ensures Balanced(c, Books(FluStep(c, s, a)))
  {
    if a.FluSample? { SampleBalanced(c, s); } else { FluBooks(c, s, a); }
  }

  lemma MainBooks(c: Config, s: State, a: Action)
    requires MainEnabled(c, s, a)
    ensures Books(MainStep(c, s, a)) == Books(s)
  {}

  lemma CancelBooks(s: State)
    ensures Books(s.(cancelled := true)) == Books(s)
  {}

  lemma StepBalanced(c: Config, s: State, a: Action)
    requires c.ingestCap > 0 && |s.ingest| <= c.ingestCap && Control(s)
    requires Balanced(c, Books(s)) && Enabled(c, s, a)
    ensures Balanced(c, Books(Step(c, s, a)))
  {
    if SrcEnabled(c, s, a) { SrcBalanced(c, s, a); }
    else if ColEnabled(c, s, a) {
      if s.col.Holding? { HandMeansOpen(s); }
      ColBalanced(c, s, a);
    }
    else if FluEnabled(c, s, a) { FluBalanced(c, s, a); }
    else if MainEnabled(c, s, a) { MainBooks(c, s, a); }
    else { CancelBooks(s); }
  }

  /** For every interleaving, including those with failed inserts. */
  lemma {:induction false} BalancedAlways(c: Config, schedule: seq<Action>)
    requires ValidConfig(c)
    ensures var r := Run(c, Init(), schedule);
            r.Some? ==> Balanced(c, Books(r.value))
  {
    if schedule != [] {
      var prefix := schedule[..|schedule| - 1];
      BalancedAlways(c, prefix);
      ControlAlways(c, prefix);
      if Run(c, Init(), schedule).Some? {
        StepBalanced(c, Run(c, Init(), prefix).value, schedule[|schedule| - 1]);
      }
    }
  }
}
