/** The recording pipeline as a step system: the source, the collector, the flush
    stage and the supervisor of runWithSource, each a sequential process, over two
    bounded channels, a shared drop counter and the store.

    A step is what one goroutine does between two points at which another one can
    act.  Deciding to drop an event and counting the drop are separate steps, and
    so are sampling the counter, inserting and clearing the batch.  Posting a
    result to a one-element result channel that nobody else writes never blocks,
    so it is one step with what precedes it. */
module Pipeline {
  import opened Text
  import opened Events

  datatype Result = Ok | Err

  /** How the event source's Run ends: nil, a cancellation, or a real error. */
  datatype SourceEnd = Finished | Canceled | Broken

  datatype Config = Config(
    inCap: nat, ingestCap: nat, batchSize: nat, maxBatch: nat,
    ignored: Event -> bool,   // the path filter's verdict
    fused: bool)              // true: deciding and counting a drop are one step

  predicate ValidConfig(c: Config) {
    c.inCap > 0 && c.ingestCap > 0 && c.batchSize > 0
  }

  datatype Source = Running | Returned(end: SourceEnd) | InClosed(end: SourceEnd) | Posted(end: SourceEnd)

  datatype Collector =
    | Selecting
    | Draining                              // after cancellation
    | Holding(ev: Event, draining: bool)    // an event in hand, its fate undecided
    | Counting(draining: bool)              // dropped, not yet counted
    | Joining                               // waiting for the source's result
    | Stopped

  datatype Then = Loop | Last

  datatype Flusher =
    | Waiting
    | Gathering                   // drainReady
    | Sampling(next: Then)
    | Inserting(next: Then)
    | Clearing(next: Then)
    | Exited(r: Result)

  datatype Main =
    | Supervising
    | Cancelling(err: Result, colDone: bool, flushDone: bool)
    | JoiningCollector(err: Result, flushDone: bool)
    | ClosingIngest(err: Result, flushDone: bool)
    | JoiningFlusher(err: Result)
    | Done(err: Result)

  datatype Fate = Accepted | Ignored | Overflowed

  datatype Handled = Handled(ev: Event, fate: Fate)

  datatype State = State(
    cancelled: bool,
    src: Source,
    input: seq<Event>, inClosed: bool,          // the collector's channel `in`
    col: Collector, dropped: nat, colErr: Option<Result>,
    ingest: seq<Event>, ingestClosed: bool,
    flu: Flusher, batch: seq<Event>, lastDropped: int, flushErr: Option<Result>,
    store: seq<Event>,
    main: Main,
    panicked: bool,
    // history: no step reads these
    sent: seq<Event>,             // what the source sent
    handled: seq<Handled>,        // what the collector decided, in order
    late: bool)                   // a drop was counted with nothing left to carry it

  function Init(): State {
    State(false, Running, [], false, Selecting, 0, None, [], false, Waiting, [], 0, None, [], Supervising, false,
          [], [], false)
  }

  datatype Action =
    | Cancel
    | SrcSend(ev: Event) | SrcReturn(end: SourceEnd) | SrcClose | SrcPost
    | ColReceive | ColSeeClosed | ColSeeCancel | ColForward | ColCount | ColFinish
    | FluReceive | FluSeeClosed | FluTick | FluGathered | FluSample | FluInsert(ok: bool) | FluClear
    | MainSeeCancel | MainSeeCollector | MainSeeFlusher | MainCancel | MainJoinCollector | MainClose | MainJoinFlusher

  predicate SrcEnabled(c: Config, s: State, a: Action) {
    match a
    case SrcSend(_) => s.src.Running? && |s.input| < c.inCap
    case SrcReturn(_) => s.src.Running?
    case SrcClose => s.src.Returned?
    case SrcPost => s.src.InClosed?
    case _ => false
  }

  function SrcStep(c: Config, s: State, a: Action): State
    requires SrcEnabled(c, s, a)
  {
    match a
    case SrcSend(ev) => s.(input := s.input + [ev], sent := s.sent + [ev])
    case SrcReturn(end) => s.(src := Returned(end))
    case SrcClose => if s.inClosed then s.(panicked := true) else s.(src := InClosed(s.src.end), inClosed := true)
    case SrcPost => s.(src := Posted(s.src.end))
  }

  predicate ColEnabled(c: Config, s: State, a: Action) {
    match a
    case ColReceive => (s.col.Selecting? || s.col.Draining?) && s.input != []
    case ColSeeClosed => (s.col.Selecting? || s.col.Draining?) && s.input == [] && s.inClosed
    case ColSeeCancel => s.col.Selecting? && s.cancelled
    case ColForward => s.col.Holding?
    case ColCount => s.col.Counting?
    case ColFinish => s.col.Joining? && s.src.Posted?
    case _ => false
  }

  function Resume(draining: bool): Collector { if draining then Draining else Selecting }

  function ColStep(c: Config, s: State, a: Action): State
    requires ColEnabled(c, s, a)
  {
    match a
    case ColReceive => s.(col := Holding(s.input[0], s.col.Draining?), input := s.input[1..])
    case ColSeeClosed => s.(col := Joining)
    case ColSeeCancel => s.(col := Draining)
    case ColForward => Forward(c, s)
    case ColCount => s.(col := Resume(s.col.draining), dropped := s.dropped + 1, late := Sampled(s))
    case ColFinish => s.(col := Stopped, colErr := Some(CollectorResult(s)))
  }

  function CollectorResult(s: State): Result {
    if s.src.Posted? && s.src.end == Broken then Err else Ok
  }

  /** What forward does with the event in hand: drop ignored paths, send without
      blocking, drop what does not fit. */
  function Decision(c: Config, s: State): Fate
    requires s.col.Holding?
  {
    if c.ignored(s.col.ev) then Ignored else if |s.ingest| < c.ingestCap then Accepted else Overflowed
  }

  /** forward.  A send on a closed channel panics whether or not there is room. */
  function Forward(c: Config, s: State): State
    requires s.col.Holding?
  {
    var fate := Decision(c, s);
    if fate != Ignored && s.ingestClosed then s.(panicked := true) else
      var handled, next := s.handled + [Handled(s.col.ev, fate)], Resume(s.col.draining);
      match fate
      case Ignored => s.(col := next, handled := handled)
      case Accepted => s.(col := next, handled := handled, ingest := s.ingest + [s.col.ev])
      case Overflowed =>
        if c.fused then s.(col := next, handled := handled, dropped := s.dropped + 1)
        else s.(col := Counting(s.col.draining), handled := handled)
  }

  predicate FluEnabled(c: Config, s: State, a: Action) {
    match a
    case FluReceive => (s.flu.Waiting? || (s.flu.Gathering? && |s.batch| < c.maxBatch)) && s.ingest != []
    case FluSeeClosed =>
      (s.flu.Waiting? || (s.flu.Gathering? && |s.batch| < c.maxBatch)) && s.ingest == [] && s.ingestClosed
    case FluTick => s.flu.Waiting? && !s.cancelled
    case FluGathered => s.flu.Gathering? && (|s.batch| >= c.maxBatch || (s.ingest == [] && !s.ingestClosed))
    case FluSample => s.flu.Sampling? && s.batch != []
    case FluInsert(_) => s.flu.Inserting?
    case FluClear => s.flu.Clearing?
    case _ => false
  }

  function FluStep(c: Config, s: State, a: Action): State
    requires FluEnabled(c, s, a)
  {
    match a
    case FluReceive =>
      var b := s.batch + [s.ingest[0]];
      s.(batch := b, ingest := s.ingest[1..],
         flu := if s.flu.Gathering? || |b| >= c.batchSize then Gathering else Waiting)
    case FluSeeClosed => if s.batch == [] then Exit(s, Ok) else s.(flu := Sampling(Last))
    case FluTick => if s.batch == [] then s else s.(flu := Sampling(Loop))
    case FluGathered => s.(flu := Sampling(Loop))
    case FluSample =>
      s.(flu := Inserting(s.flu.next), late := false,
         batch := Attribute(s.batch, s.lastDropped, s.dropped), lastDropped := Booked(s.lastDropped, s.dropped))
    case FluInsert(ok) => if ok then s.(flu := Clearing(s.flu.next), store := s.store + s.batch) else Exit(s, Err)
    case FluClear => if s.flu.next.Loop? then s.(flu := Waiting, batch := []) else Exit(s.(batch := []), Ok)
  }

  function Exit(s: State, r: Result): State { s.(flu := Exited(r), flushErr := Some(r)) }

  predicate MainEnabled(c: Config, s: State, a: Action) {
    match a
    case MainSeeCancel => s.main.Supervising? && s.cancelled
    case MainSeeCollector => s.main.Supervising? && s.colErr.Some?
    case MainSeeFlusher => s.main.Supervising? && s.flushErr.Some?
    case MainCancel => s.main.Cancelling?
    case MainJoinCollector => s.main.JoiningCollector? && s.colErr.Some?
    case MainClose => s.main.ClosingIngest?
    case MainJoinFlusher => s.main.JoiningFlusher? && s.flushErr.Some?
    case _ => false
  }

  function First(err: Result, other: Result): Result { if err == Ok then other else err }

  function MainStep(c: Config, s: State, a: Action): State
    requires MainEnabled(c, s, a)
  {
    match a
    case MainSeeCancel => s.(main := Cancelling(Ok, false, false))
    case MainSeeCollector => s.(main := Cancelling(s.colErr.value, true, false), colErr := None)
    case MainSeeFlusher => s.(main := Cancelling(s.flushErr.value, false, true), flushErr := None)
    case MainCancel =>
      var m := s.main;
      s.(cancelled := true,
         main := if m.colDone then ClosingIngest(m.err, m.flushDone) else JoiningCollector(m.err, m.flushDone))
    case MainJoinCollector =>
      s.(main := ClosingIngest(First(s.main.err, s.colErr.value), s.main.flushDone), colErr := None)
    case MainClose =>
      if s.ingestClosed then s.(panicked := true) else
        s.(ingestClosed := true, main := if s.main.flushDone then Done(s.main.err) else JoiningFlusher(s.main.err))
    case MainJoinFlusher => s.(main := Done(First(s.main.err, s.flushErr.value)), flushErr := None)
  }

  predicate Enabled(c: Config, s: State, a: Action) {
    && !s.panicked
    && (|| (a.Cancel? && !s.cancelled)
        || SrcEnabled(c, s, a) || ColEnabled(c, s, a) || FluEnabled(c, s, a) || MainEnabled(c, s, a))
  }

  function Step(c: Config, s: State, a: Action): State
    requires Enabled(c, s, a)
  {
    if SrcEnabled(c, s, a) then SrcStep(c, s, a)
    else if ColEnabled(c, s, a) then ColStep(c, s, a)
    else if FluEnabled(c, s, a) then FluStep(c, s, a)
    else if MainEnabled(c, s, a) then MainStep(c, s, a)
    else s.(cancelled := true)
  }

  /** The state a schedule leads to from s; None if some step of it cannot be taken. */
  function Run(c: Config, s: State, schedule: seq<Action>): Option<State> {
    if schedule == [] then Some(s) else
      var before := Run(c, s, schedule[..|schedule| - 1]);
      var a := schedule[|schedule| - 1];
      if before.Some? && Enabled(c, before.value, a) then Some(Step(c, before.value, a)) else None
  }

  // ---- what the parts of the state hold ----

  function Hand(s: State): seq<Event> { if s.col.Holding? then [s.col.ev] else [] }

  /** The part of the batch that is not in the store yet. */
  function Held(s: State): seq<Event> { if s.flu.Clearing? then [] else s.batch }

  /** Every accepted event has had a sample of the drop counter taken for it. */
  predicate Sampled(s: State) {
    && s.ingest == []
    && (s.flu.Waiting? || s.flu.Gathering? || s.flu.Sampling? ==> s.batch == [])
  }

  function Uncounted(s: State): nat { if s.col.Counting? then 1 else 0 }

  function WithFate(hs: seq<Handled>, f: Fate): seq<Event> {
    if hs == [] then [] else
      var before, h := WithFate(hs[..|hs| - 1], f), hs[|hs| - 1];
      if h.fate == f then before + [h.ev] else before
  }

  function HandledEvents(hs: seq<Handled>): seq<Event> {
    if hs == [] then [] else HandledEvents(hs[..|hs| - 1]) + [hs[|hs| - 1].ev]
  }
}
