/** The collector stage in its own form: a receive loop that filters events and
    forwards them without ever blocking. */
module CollectorStage {
  import opened Text
  import opened Events
  import opened IgnoreRules
  import Pipeline

  /** What a receive from the source's channel yields: an event, met with or
      without room in the outgoing channel, or the news that it is closed. */
  datatype Receive = Take(ev: Event, room: bool) | Closed

  /** The outgoing channel, seen from the sender: all that was ever sent. */
  class Outlet {
    var sent: seq<Event>
    constructor ()
      ensures sent == []
    {
      sent := [];
    }
  }

  class Collector {
    const rules: seq<string>
    const clean: string -> string
    var dropped: int

    constructor (ignorePaths: seq<string>, clean: string -> string)
      ensures this.clean == clean && dropped == 0
      ensures rules == Dedup(Cleaned(DEFAULT_IGNORE_PATHS + ignorePaths, clean))
    {
      var r := NewIgnoreRules(ignorePaths, clean);
      rules, this.clean, dropped := r, clean, 0;
    }

    /** An event is ignored for either of its paths. */
    predicate Ignores(ev: Event) {
      || (ev.path != "" && Covered(rules, clean(ev.path)))
      || (ev.oldPath != "" && Covered(rules, clean(ev.oldPath)))
    }

    function FateOf(r: Receive): Pipeline.Fate
      requires r.Take?
    {
      if Ignores(r.ev) then Pipeline.Ignored else if r.room then Pipeline.Accepted else Pipeline.Overflowed
    }

    /** The collector's decisions about the first i receives. */
    function Decisions(receives: seq<Receive>, i: nat): seq<Pipeline.Handled>
      requires i <= |receives|
    {
      if i == 0 then [] else
        var before, r := Decisions(receives, i - 1), receives[i - 1];
        if r.Take? then before + [Pipeline.Handled(r.ev, FateOf(r))] else before
    }

    /** An event on an ignored path is dropped without a trace; any other is sent if
        there is room, and counted if there is none. */
    method Forward(ev: Event, room: bool, out: Outlet)
      modifies this, out
      ensures out.sent == if FateOf(Take(ev, room)).Accepted? then old(out.sent) + [ev] else old(out.sent)
      ensures dropped == if FateOf(Take(ev, room)).Overflowed? then old(dropped) + 1 else old(dropped)
      ensures var hit := || (ev.path != "" && Covered(rules, clean(ev.path)))
                         || (ev.oldPath != "" && Covered(rules, clean(ev.oldPath)));
              && out.sent == old(out.sent) + (if !hit && room then [ev] else [])
              && dropped == old(dropped) + (if !hit && !room then 1 else 0)
    {
      assert old(out.sent) + [] == old(out.sent);
      var ignore := ShouldIgnorePath(rules, ev.path, clean);
      if !ignore {
        ignore := ShouldIgnorePath(rules, ev.oldPath, clean);
      }
      if ignore {
        return;
      }
      if room {
        out.sent := out.sent + [ev];
      } else {
        dropped := dropped + 1;
      }
    }

    /** The events on no ignored path among the first i receives, in order. */
    function Unignored(receives: seq<Receive>, i: nat): seq<Event>
      requires i <= |receives|
    {
      if i == 0 then [] else
        var before, r := Unignored(receives, i - 1), receives[i - 1];
        if r.Take?
           && !(r.ev.path != "" && Covered(rules, clean(r.ev.path)))
           && !(r.ev.oldPath != "" && Covered(rules, clean(r.ev.oldPath)))
        then before + [r.ev] else before
    }

    ghost predicate AllHadRoom(receives: seq<Receive>, i: nat)
      requires i <= |receives|
    {
      forall k | 0 <= k < i :: receives[k].Take? ==> receives[k].room
    }

    /** With room for every event, none is dropped and all but the ignored ones are
        accepted. */
    lemma {:induction false} RoomForAll(receives: seq<Receive>, i: nat)
      requires i <= |receives| && AllHadRoom(receives, i)
      ensures Pipeline.WithFate(Decisions(receives, i), Pipeline.Accepted) == Unignored(receives, i)
      ensures Pipeline.WithFate(Decisions(receives, i), Pipeline.Overflowed) == []
    {
      if i > 0 {
        RoomForAll(receives, i - 1);
        DecisionStep(receives, i - 1, Pipeline.Accepted);
        DecisionStep(receives, i - 1, Pipeline.Overflowed);
      }
    }

    /** The stage does to an event in hand what the pipeline's collector does. */
    lemma ForwardRefinesPipeline(c: Pipeline.Config, s: Pipeline.State)
      requires s.col.Holding? && !s.ingestClosed && c.ignored(s.col.ev) == Ignores(s.col.ev)
      ensures var ev, room, t := s.col.ev, |s.ingest| < c.ingestCap, Pipeline.Forward(c, s);
              && FateOf(Take(ev, room)) == Pipeline.Decision(c, s)
              && t.ingest == s.ingest + (if !Ignores(ev) && room then [ev] else [])
              && t.dropped + Pipeline.Uncounted(t) == s.dropped + (if !Ignores(ev) && !room then 1 else 0)
              && t.handled == s.handled + [Pipeline.Handled(ev, FateOf(Take(ev, room)))]
    {
      assert s.ingest + [] == s.ingest;
    }

    ghost predicate Forwarded(receives: seq<Receive>, i: nat, out: Outlet, sent0: seq<Event>, dropped0: int)
      requires i <= |receives|
      reads this, out
    {
      && out.sent == sent0 + Pipeline.WithFate(Decisions(receives, i), Pipeline.Accepted)
      && dropped == dropped0 + |Pipeline.WithFate(Decisions(receives, i), Pipeline.Overflowed)|
    }

    lemma DecisionStep(receives: seq<Receive>, i: nat, f: Pipeline.Fate)
      requires i < |receives|
      ensures Pipeline.WithFate(Decisions(receives, i + 1), f) ==
              if receives[i].Take? && FateOf(receives[i]) == f
              then Pipeline.WithFate(Decisions(receives, i), f) + [receives[i].ev]
              else Pipeline.WithFate(Decisions(receives, i), f)
    {
      if receives[i].Take? {
        var before := Decisions(receives, i);
        assert Decisions(receives, i + 1)[..|before|] == before;
      }
    }

    method Handle(receives: seq<Receive>, i: nat, out: Outlet, ghost sent0: seq<Event>, ghost dropped0: int)
      requires i < |receives| && Forwarded(receives, i, out, sent0, dropped0)
      modifies this, out
      ensures Forwarded(receives, i + 1, out, sent0, dropped0)
    {
      DecisionStep(receives, i, Pipeline.Accepted);
      DecisionStep(receives, i, Pipeline.Overflowed);
      if receives[i].Take? {
        Forward(receives[i].ev, receives[i].room, out);
      }
    }

    /** Everything up to the closing of the channel has been received; or all there
        is, and more is awaited. */
    ghost predicate StoppedAt(receives: seq<Receive>, closed: bool, pos: nat) {
      && pos <= |receives|
      && if closed then 0 < pos && receives[pos - 1] == Closed && Closed !in receives[..pos - 1]
         else pos == |receives| && Closed !in receives
    }

    /** The loop after cancellation: it goes on with the channel where the select
        stopped, looks at nothing else, and ends when the source has closed it. */
    method Drain(receives: seq<Receive>, start: nat, out: Outlet, ghost sent0: seq<Event>, ghost dropped0: int)
      returns (closed: bool, pos: nat)
      requires start <= |receives| && Forwarded(receives, start, out, sent0, dropped0)
      requires Closed !in receives[..start]
      modifies this, out
      ensures StoppedAt(receives, closed, pos) && Forwarded(receives, pos, out, sent0, dropped0)
    {
      pos := start;
      while pos < |receives| && receives[pos] != Closed
        invariant pos <= |receives| && Forwarded(receives, pos, out, sent0, dropped0)
        invariant Closed !in receives[..pos]
      {
        Handle(receives, pos, out, sent0, dropped0);
        pos := pos + 1;
      }
      closed := pos < |receives|;
      if closed {
        Handle(receives, pos, out, sent0, dropped0);
        pos := pos + 1;
      }
    }

    /** The select loop.  cancelAt is the receive before which the select takes the
        cancelled context instead, if it ever does.  Whenever that is, the same
        events are forwarded and dropped as without it: the contract does not
        mention cancelAt.  The loop ends only when the source has closed its
        channel, and the result is the source's, a cancellation counting as success. */
    method Run(receives: seq<Receive>, cancelAt: Option<nat>, end: Pipeline.SourceEnd, out: Outlet)
      returns (stopped: bool, err: Pipeline.Result, pos: nat)
      modifies this, out
      ensures StoppedAt(receives, stopped, pos)
      ensures Forwarded(receives, pos, out, old(out.sent), old(dropped))
      ensures AllHadRoom(receives, pos) ==>
                out.sent == old(out.sent) + Unignored(receives, pos) && dropped == old(dropped)
      ensures err == if stopped && end == Pipeline.Broken then Pipeline.Err else Pipeline.Ok
    {
      ghost var sent0, dropped0 := out.sent, dropped;
      stopped, pos := false, 0;
      while pos < |receives| && !stopped
        invariant pos <= |receives| && Forwarded(receives, pos, out, sent0, dropped0)
        invariant if stopped then StoppedAt(receives, true, pos) else Closed !in receives[..pos]
        decreases |receives| - pos
      {
        if cancelAt == Some(pos) {
          stopped, pos := Drain(receives, pos, out, sent0, dropped0);
          break;
        }
        Handle(receives, pos, out, sent0, dropped0);
        stopped := receives[pos] == Closed;
        pos := pos + 1;
      }
      err := if stopped && end == Pipeline.Broken then Pipeline.Err else Pipeline.Ok;
      if AllHadRoom(receives, pos) { RoomForAll(receives, pos); }
    }
  }
}
