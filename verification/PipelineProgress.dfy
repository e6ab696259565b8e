/** Shutdown finishes: once the context is cancelled and the source has returned,
    no goroutine can block for good and no schedule can go on for ever. */
module PipelineProgress {
  import opened Text
  import opened Events
  import opened Pipeline
  import opened PipelineControl

  /** The situation from which shutdown must run to its end. */
  predicate Ending(s: State) { s.cancelled && !s.src.Running? }

  function SrcRank(src: Source): nat {
    match src case Running => 3 case Returned(_) => 2 case InClosed(_) => 1 case Posted(_) => 0
  }

  function ResumeRank(draining: bool): nat { if draining then 2 else 3 }

  function ColRank(col: Collector): nat {
    match col
    case Selecting => ResumeRank(false)
    case Draining => ResumeRank(true)
    case Holding(_, d) => ResumeRank(d) + 7
    case Counting(d) => ResumeRank(d) + 1
    case Joining => 1
    case Stopped => 0
  }

  function FluRank(flu: Flusher): nat {
    match flu
    case Waiting => 10
    case Gathering => 14
    case Sampling(n) => if n.Loop? then 13 else 4
    case Inserting(n) => if n.Loop? then 12 else 3
    case Clearing(n) => if n.Loop? then 11 else 2
    case Exited(_) => 0
  }

  function MainRank(main: Main): nat {
    match main
    case Supervising => 5
    case Cancelling(_, _, _) => 4
    case JoiningCollector(_, _) => 3
    case ClosingIngest(_, _) => 2
    case JoiningFlusher(_) => 1
    case Done(_) => 0
  }

  /** Every event still queued is worth the steps its delivery may take. */
  function Measure(s: State): nat {
    8 * |s.input| + 5 * |s.ingest| + SrcRank(s.src) + ColRank(s.col) + FluRank(s.flu) + MainRank(s.main)
  }

  lemma SrcProgress(c: Config, s: State, a: Action)
    requires Control(s) && Ending(s) && SrcEnabled(c, s, a)
    ensures Ending(SrcStep(c, s, a)) && Measure(SrcStep(c, s, a)) < Measure(s)
  {}

  lemma ForwardProgress(c: Config, s: State)
    requires s.col.Holding? && !s.ingestClosed
    ensures var t := Forward(c, s);
            && t.cancelled == s.cancelled && t.src == s.src && t.flu == s.flu && t.main == s.main && t.input == s.input
            && 5 * |t.ingest| + ColRank(t.col) < 5 * |s.ingest| + ColRank(s.col)
  {
    var t := Forward(c, s);
    match Decision(c, s)
    case Ignored => assert t.col == Resume(s.col.draining);
    case Accepted => assert t.col == Resume(s.col.draining) && t.ingest == s.ingest + [s.col.ev];
    case Overflowed => assert t.ingest == s.ingest;
  }

  lemma ColProgress(c: Config, s: State, a: Action)
    requires Control(s) && Ending(s) && ColEnabled(c, s, a)
    ensures Ending(ColStep(c, s, a)) && Measure(ColStep(c, s, a)) < Measure(s)
  {
    if a.ColForward? {
      HandMeansOpen(s);
      ForwardProgress(c, s);
    } else {
      var t := ColStep(c, s, a);
      assert t.src == s.src && t.flu == s.flu && t.main == s.main && t.ingest == s.ingest;
      assert 8 * |t.input| + ColRank(t.col) < 8 * |s.input| + ColRank(s.col);
    }
  }

  /** t differs from s only in what the flush stage owns and in the queue it reads. */
  predicate OnlyFlusher(s: State, t: State) {
    t.cancelled == s.cancelled && t.src == s.src && t.col == s.col && t.main == s.main && t.input == s.input
  }

  lemma ReceiveMoves(c: Config, s: State)
    requires FluEnabled(c, s, FluReceive)
    ensures var t := FluStep(c, s, FluReceive);
            OnlyFlusher(s, t) && |t.ingest| == |s.ingest| - 1 && FluRank(t.flu) <= FluRank(s.flu) + 4
  {
    var t := FluStep(c, s, FluReceive);
    assert t == s.(batch := t.batch, ingest := s.ingest[1..], flu := t.flu);
  }

  lemma SeeClosedMoves(c: Config, s: State)
    requires FluEnabled(c, s, FluSeeClosed)
    ensures var t := FluStep(c, s, FluSeeClosed);
            OnlyFlusher(s, t) && t.ingest == s.ingest && FluRank(t.flu) < FluRank(s.flu)
  {
    var t := FluStep(c, s, FluSeeClosed);
    assert t == s.(flu := t.flu, flushErr := t.flushErr);
  }

  lemma GatheredMoves(c: Config, s: State)
    requires FluEnabled(c, s, FluGathered)
    ensures var t := FluStep(c, s, FluGathered);
            OnlyFlusher(s, t) && t.ingest == s.ingest && FluRank(t.flu) < FluRank(s.flu)
  {
    assert FluStep(c, s, FluGathered) == s.(flu := Sampling(Loop));
  }

  lemma SampleMoves(c: Config, s: State)
    requires FluEnabled(c, s, FluSample)
    ensures var t := FluStep(c, s, FluSample);
            OnlyFlusher(s, t) && t.ingest == s.ingest && FluRank(t.flu) < FluRank(s.flu)
  {
    var t := FluStep(c, s, FluSample);
    assert t == s.(flu := Inserting(s.flu.next), late := t.late, batch := t.batch, lastDropped := t.lastDropped);
  }

  lemma InsertMoves(c: Config, s: State, ok: bool)
    requires FluEnabled(c, s, FluInsert(ok))
    ensures var t := FluStep(c, s, FluInsert(ok));
            OnlyFlusher(s, t) && t.ingest == s.ingest && FluRank(t.flu) < FluRank(s.flu)
  {
    var t := FluStep(c, s, FluInsert(ok));
    if ok {
      assert t == s.(flu := Clearing(s.flu.next), store := t.store);
    } else {
      assert t == s.(flu := Exited(Err), flushErr := t.flushErr);
    }
  }

  lemma ClearMoves(c: Config, s: State)
    requires FluEnabled(c, s, FluClear)
    ensures var t := FluStep(c, s, FluClear);
            OnlyFlusher(s, t) && t.ingest == s.ingest && FluRank(t.flu) < FluRank(s.flu)
  {
    var t := FluStep(c, s, FluClear);
    if s.flu.next.Loop? {
      assert t == s.(flu := Waiting, batch := []);
    } else {
      assert t == s.(flu := Exited(Ok), flushErr := t.flushErr, batch := []);
    }
  }

  lemma FluProgress(c: Config, s: State, a: Action)
    requires Ending(s) && FluEnabled(c, s, a)
    ensures Ending(FluStep(c, s, a)) && Measure(FluStep(c, s, a)) < Measure(s)
  {
    match a
    case FluReceive => ReceiveMoves(c, s);
    case FluSeeClosed => SeeClosedMoves(c, s);
    case FluGathered => GatheredMoves(c, s);
    case FluSample => SampleMoves(c, s);
    case FluInsert(ok) => InsertMoves(c, s, ok);
    case FluClear => ClearMoves(c, s);
    case _ =>
  }

  lemma MainProgress(c: Config, s: State, a: Action)
    requires Control(s) && Ending(s) && MainEnabled(c, s, a)
    ensures Ending(MainStep(c, s, a)) && Measure(MainStep(c, s, a)) < Measure(s)
  {}

  /** Every step that can still be taken brings the end nearer. */
  lemma StepProgress(c: Config, s: State, a: Action)
    requires Control(s) && Ending(s) && Enabled(c, s, a)
    ensures Ending(Step(c, s, a)) && Measure(Step(c, s, a)) < Measure(s)
  {
    if SrcEnabled(c, s, a) { SrcProgress(c, s, a); }
    else if ColEnabled(c, s, a) { ColProgress(c, s, a); }
    else if FluEnabled(c, s, a) { FluProgress(c, s, a); }
    else { MainProgress(c, s, a); }
  }

  /** A schedule continued from such a state is no longer than its measure. */
  lemma {:induction false} EndingIsBounded(c: Config, s: State, schedule: seq<Action>)
    requires ValidConfig(c) && Control(s) && Ending(s)
    ensures var r := Run(c, s, schedule);
            r.Some? ==> Control(r.value) && Ending(r.value) && |schedule| + Measure(r.value) <= Measure(s)
  {
    if schedule != [] {
      var prefix, a := schedule[..|schedule| - 1], schedule[|schedule| - 1];
      EndingIsBounded(c, s, prefix);
      var r := Run(c, s, prefix);
      if r.Some? && Enabled(c, r.value, a) {
        StepProgress(c, r.value, a);
        StepKeepsControl(c, r.value, a);
      }
    }
  }

  /** The step that can be taken, whoever is waiting for whom. */
  function SrcNext(s: State): Action
    requires !s.src.Running?
  {
    if s.src.Returned? then SrcClose else SrcPost
  }

  function ColNext(s: State): Action {
    match s.col
    case Selecting => ColSeeCancel
    case Draining => if s.input != [] then ColReceive else ColSeeClosed
    case Holding(_, _) => ColForward
    case Counting(_) => ColCount
    case _ => ColFinish
  }

  function FluNext(c: Config, s: State): Action {
    match s.flu
    case Waiting => if s.ingest != [] then FluReceive else FluSeeClosed
    case Gathering =>
      if |s.batch| >= c.maxBatch then FluGathered else if s.ingest != [] then FluReceive else FluSeeClosed
    case Sampling(_) => FluSample
    case Inserting(_) => FluInsert(true)
    case _ => FluClear
  }

  function NextAction(c: Config, s: State): Action
    requires !s.src.Running?
  {
    match s.main
    case Supervising => MainSeeCancel
    case Cancelling(_, _, _) => MainCancel
    case JoiningCollector(_, _) =>
      if s.colErr.Some? then MainJoinCollector else if s.src.Posted? then ColNext(s) else SrcNext(s)
    case ClosingIngest(_, _) => MainClose
    case _ => if s.flushErr.Some? then MainJoinFlusher else FluNext(c, s)
  }

  /** Until runWithSource returns, some step can be taken: even when the flush
      stage died early and nobody reads ingest, the collector never blocks on it. */
  lemma NeverStuck(c: Config, s: State)
    requires ValidConfig(c) && Control(s) && Bounds(c, s) && Ending(s) && !s.main.Done?
    ensures Enabled(c, s, NextAction(c, s))
  {
    match s.main
    case JoiningCollector(_, _) =>
      if s.colErr.None? {
        if s.src.Posted? {
          assert ColEnabled(c, s, ColNext(s));
        } else {
          assert SrcEnabled(c, s, SrcNext(s));
        }
      }
    case JoiningFlusher(_) =>
      if s.flushErr.None? {
        assert FluEnabled(c, s, FluNext(c, s));
      }
    case _ =>
  }

  /** Termination: a schedule from such a state that cannot be continued has ended
      with runWithSource's return, and every schedule ends. */
  lemma {:induction false} ShutdownCompletes(c: Config, before: seq<Action>, s: State, schedule: seq<Action>, t: State)
    requires ValidConfig(c) && Run(c, Init(), before) == Some(s) && Ending(s)
    requires Run(c, s, schedule) == Some(t)
    ensures |schedule| <= Measure(s)
    ensures (forall a :: !Enabled(c, t, a)) ==> t.main.Done?
  {
    ControlAlways(c, before);
    EndingIsBounded(c, s, schedule);
    BoundsKept(c, s, schedule);
    if !t.main.Done? {
      NeverStuck(c, t);
    }
  }

  lemma {:induction false} BoundsKept(c: Config, s: State, schedule: seq<Action>)
    requires ValidConfig(c) && Bounds(c, s)
    ensures var r := Run(c, s, schedule); r.Some? ==> Bounds(c, r.value)
  {
    if schedule != [] {
      var prefix, a := schedule[..|schedule| - 1], schedule[|schedule| - 1];
      BoundsKept(c, s, prefix);
      var r := Run(c, s, prefix);
      if r.Some? && Enabled(c, r.value, a) {
        StepKeepsBounds(c, r.value, a);
      }
    }
  }
}
