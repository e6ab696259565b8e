/** What every step of the pipeline keeps about who has stopped, who has been
    joined and which channel is closed. */
module PipelineControl {
  import opened Text
  import opened Events
  import opened Pipeline

  predicate CollectorJoined(m: Main) {
    m.ClosingIngest? || m.JoiningFlusher? || m.Done? || (m.Cancelling? && m.colDone)
  }

  predicate FlusherJoined(m: Main) {
    m.Done? || ((m.Cancelling? || m.JoiningCollector? || m.ClosingIngest?) && m.flushDone)
  }

  /** Shutdown order: source, collector, ingest, flush stage. */
  ghost predicate Order(s: State) {
    && !s.panicked
    && (s.inClosed <==> s.src.InClosed? || s.src.Posted?)
    && (s.col.Joining? || s.col.Stopped? ==> s.inClosed && s.input == [])
    && (s.col.Stopped? ==> s.src.Posted?)
    && (s.ingestClosed <==> s.main.JoiningFlusher? || s.main.Done?)
    && (CollectorJoined(s.main) ==> s.col.Stopped?)
    && (s.main.Supervising? || s.main.Cancelling? || s.cancelled)
    && (s.flu.Exited? && s.flu.r == Ok ==> s.ingestClosed && s.ingest == [] && s.batch == [])
    && ((s.flu.Sampling? || s.flu.Inserting? || s.flu.Clearing?) && s.flu.next == Last ==>
          s.ingestClosed && s.ingest == [])
  }

  /** Each result is posted once, received once, and not changed on the way. */
  ghost predicate Results(s: State) {
    && (s.col.Stopped? <==> s.colErr.Some? || CollectorJoined(s.main))
    && (s.colErr.Some? ==> !CollectorJoined(s.main) && s.colErr.value == CollectorResult(s))
    && (s.flu.Exited? <==> s.flushErr.Some? || FlusherJoined(s.main))
    && (s.flushErr.Some? ==> s.flu.Exited? && !FlusherJoined(s.main) && s.flushErr.value == s.flu.r)
    && (s.main.Cancelling? || s.main.JoiningCollector? || s.main.ClosingIngest? ==>
          s.main.flushDone ==> s.flu == Exited(Err))
    && (!s.main.Supervising? ==> (s.main.err == Err <==> Failure(s)))
  }

  /** A failure among the results received so far. */
  ghost predicate Failure(s: State) {
    || (CollectorJoined(s.main) && CollectorResult(s) == Err)
    || (FlusherJoined(s.main) && s.flu == Exited(Err))
  }

  ghost predicate Control(s: State) { Order(s) && Results(s) }

  /** The channels and the batch keep their bounds. */
  ghost predicate Bounds(c: Config, s: State) {
    var most := if c.batchSize < c.maxBatch then c.maxBatch else c.batchSize;
    && |s.input| <= c.inCap && |s.ingest| <= c.ingestCap
    && (s.flu.Waiting? ==> |s.batch| < c.batchSize)
    && (s.flu.Gathering? || s.flu.Sampling? || s.flu.Inserting? || s.flu.Clearing? ==> 1 <= |s.batch| <= most)
    && (s.flu.Gathering? ==> c.batchSize <= |s.batch|)
  }

  lemma SrcKeepsControl(c: Config, s: State, a: Action)
    requires Control(s) && SrcEnabled(c, s, a)
    ensures Control(SrcStep(c, s, a))
  {}

  /** A collector with an event in hand has not been joined, so ingest is open. */
  lemma HandMeansOpen(s: State)
    requires Control(s) && !s.col.Stopped?
    ensures !s.ingestClosed && !CollectorJoined(s.main) && s.colErr == None
  {}

  lemma ForwardKeepsControl(c: Config, s: State)
    requires Control(s) && s.col.Holding?
    ensures Control(Forward(c, s))
  {
    HandMeansOpen(s);
    var handled, next := s.handled + [Handled(s.col.ev, Decision(c, s))], Resume(s.col.draining);
    match Decision(c, s)
    case Ignored => CollectorStillBusy(s, next, s.ingest, s.dropped, handled);
    case Accepted => CollectorStillBusy(s, next, s.ingest + [s.col.ev], s.dropped, handled);
    case Overflowed =>
      if c.fused {
        CollectorStillBusy(s, next, s.ingest, s.dropped + 1, handled);
      } else {
        CollectorStillBusy(s, Counting(s.col.draining), s.ingest, s.dropped, handled);
      }
  }

  /** Control looks neither at the drop counter nor at what the collector has
      decided, and at the collector only to see that it has not finished. */
  lemma CollectorStillBusy(s: State, col: Collector, ingest: seq<Event>, dropped: nat, handled: seq<Handled>)
    requires Control(s) && s.col.Holding? && !s.ingestClosed && !col.Joining? && !col.Stopped?
    ensures Control(s.(col := col, ingest := ingest, dropped := dropped, handled := handled))
  {
    var t := s.(col := col, ingest := ingest, dropped := dropped, handled := handled);
    assert Order(t);
    assert Results(t);
  }

  lemma ColKeepsControl(c: Config, s: State, a: Action)
    requires Control(s) && ColEnabled(c, s, a)
    ensures Control(ColStep(c, s, a))
  {
    if a.ColForward? {
      ForwardKeepsControl(c, s);
    }
  }

  lemma FluGatherKeepsControl(c: Config, s: State, a: Action)
    requires Control(s) && FluEnabled(c, s, a) && !(a.FluSample? || a.FluInsert? || a.FluClear?)
    ensures Control(FluStep(c, s, a))
  {}

  lemma SampleKeepsControl(c: Config, s: State)
    requires Control(s) && FluEnabled(c, s, FluSample)
    ensures Control(FluStep(c, s, FluSample))
  {}

  lemma InsertKeepsControl(c: Config, s: State, ok: bool)
    requires Control(s) && FluEnabled(c, s, FluInsert(ok))
    ensures Control(FluStep(c, s, FluInsert(ok)))
  {}

  lemma ClearKeepsControl(c: Config, s: State)
    requires Control(s) && FluEnabled(c, s, FluClear)
    ensures Control(FluStep(c, s, FluClear))
  {}

  lemma FluKeepsControl(c: Config, s: State, a: Action)
    requires Control(s) && FluEnabled(c, s, a)
    ensures Control(FluStep(c, s, a))
  {
    match a
    case FluSample => SampleKeepsControl(c, s);
    case FluInsert(ok) => InsertKeepsControl(c, s, ok);
    case FluClear => ClearKeepsControl(c, s);
    case _ => FluGatherKeepsControl(c, s, a);
  }

  lemma MainKeepsControl(c: Config, s: State, a: Action)
    requires Control(s) && MainEnabled(c, s, a)
    ensures Control(MainStep(c, s, a))
  {}

  lemma StepKeepsControl(c: Config, s: State, a: Action)
    requires Control(s) && Enabled(c, s, a)
    ensures Control(Step(c, s, a))
  {
    if SrcEnabled(c, s, a) { SrcKeepsControl(c, s, a); }
    else if ColEnabled(c, s, a) { ColKeepsControl(c, s, a); }
    else if FluEnabled(c, s, a) { FluKeepsControl(c, s, a); }
    else if MainEnabled(c, s, a) { MainKeepsControl(c, s, a); }
  }

  lemma ForwardTouches(c: Config, s: State)
    requires s.col.Holding?
    ensures var t := Forward(c, s);
            && t.input == s.input && t.flu == s.flu && t.batch == s.batch
            && t.ingest == if Decision(c, s) == Accepted && !s.ingestClosed then s.ingest + [s.col.ev] else s.ingest
  {}

  lemma ForwardKeepsBounds(c: Config, s: State)
    requires Bounds(c, s) && s.col.Holding?
    ensures Bounds(c, Forward(c, s))
  {
    ForwardTouches(c, s);
    SameFlusherSameBounds(c, s, Forward(c, s));
  }

  lemma SameFlusherSameBounds(c: Config, s: State, t: State)
    requires Bounds(c, s) && t.flu == s.flu && t.batch == s.batch && |t.input| <= c.inCap && |t.ingest| <= c.ingestCap
    ensures Bounds(c, t)
  {}

  lemma ColKeepsBounds(c: Config, s: State, a: Action)
    requires ValidConfig(c) && Bounds(c, s) && ColEnabled(c, s, a)
    ensures Bounds(c, ColStep(c, s, a))
  {
    if a.ColForward? {
      ForwardKeepsBounds(c, s);
    } else {
      var t := ColStep(c, s, a);
      assert |t.input| <= |s.input| && t.ingest == s.ingest && t.flu == s.flu && t.batch == s.batch;
    }
  }

  lemma FluGatherKeepsBounds(c: Config, s: State, a: Action)
    requires ValidConfig(c) && Bounds(c, s) && FluEnabled(c, s, a) && !(a.FluSample? || a.FluInsert? || a.FluClear?)
    ensures Bounds(c, FluStep(c, s, a))
  {}

  lemma SampleKeepsBounds(c: Config, s: State)
    requires ValidConfig(c) && Bounds(c, s) && FluEnabled(c, s, FluSample)
    ensures Bounds(c, FluStep(c, s, FluSample))
  {
    var b := Attribute(s.batch, s.lastDropped, s.dropped);
    assert |b| == |s.batch|;
    assert FluStep(c, s, FluSample).batch == b;
  }

  lemma InsertKeepsBounds(c: Config, s: State, ok: bool)
    requires ValidConfig(c) && Bounds(c, s) && FluEnabled(c, s, FluInsert(ok))
    ensures Bounds(c, FluStep(c, s, FluInsert(ok)))
  {
    if ok {
      assert FluStep(c, s, FluInsert(true)).flu == Clearing(s.flu.next);
    } else {
      assert FluStep(c, s, FluInsert(false)) == Exit(s, Err);
    }
  }

  lemma ClearKeepsBounds(c: Config, s: State)
    requires ValidConfig(c) && Bounds(c, s) && FluEnabled(c, s, FluClear)
    ensures Bounds(c, FluStep(c, s, FluClear))
  {
    if s.flu.next.Loop? {
      assert FluStep(c, s, FluClear) == s.(flu := Waiting, batch := []);
    } else {
      assert FluStep(c, s, FluClear) == Exit(s.(batch := []), Ok);
    }
  }

  lemma FluKeepsBounds(c: Config, s: State, a: Action)
    requires ValidConfig(c) && Bounds(c, s) && FluEnabled(c, s, a)
    ensures Bounds(c, FluStep(c, s, a))
  {
    match a
    case FluSample => SampleKeepsBounds(c, s);
    case FluInsert(ok) => InsertKeepsBounds(c, s, ok);
    case FluClear => ClearKeepsBounds(c, s);
    case _ => FluGatherKeepsBounds(c, s, a);
  }

  lemma StepKeepsBounds(c: Config, s: State, a: Action)
    requires ValidConfig(c) && Bounds(c, s) && Enabled(c, s, a)
    ensures Bounds(c, Step(c, s, a))
  {
    if ColEnabled(c, s, a) { ColKeepsBounds(c, s, a); }
    else if FluEnabled(c, s, a) { FluKeepsBounds(c, s, a); }
  }

  /** For every interleaving: no send on a closed channel and no second close, no
      flush stage that reports success before the collector is joined and ingest
      is closed and empty, and no channel or batch beyond its bound. */
  lemma {:induction false} ControlAlways(c: Config, schedule: seq<Action>)
    requires ValidConfig(c)
    ensures var r := Run(c, Init(), schedule);
            r.Some? ==> Control(r.value) && Bounds(c, r.value)
  {
    if schedule != [] {
      var prefix := schedule[..|schedule| - 1];
      ControlAlways(c, prefix);
      var r := Run(c, Init(), schedule);
      if r.Some? {
        var s := Run(c, Init(), prefix).value;
        StepKeepsControl(c, s, schedule[|schedule| - 1]);
        StepKeepsBounds(c, s, schedule[|schedule| - 1]);
      }
    }
  }
}
