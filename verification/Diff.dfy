/** The machine-state summary: one pass over a window of events, oldest first. */
module Diff {
  import opened Text
  import opened Events

  datatype ProcessChange = ProcessChange(ts: int, pid: int, comm: string, path: string, action: string)
  datatype FileChange = FileChange(ts: int, path: string, count: int, action: string)
  datatype SocketChange = SocketChange(ts: int, pid: int, comm: string, socket: string, action: string)
  datatype HotWriter = HotWriter(path: string, pid: int, comm: string, count: int, ts: int)
  datatype Restart = Restart(comm: string, pid: int, ts: int)

  datatype Report = Report(
    newProcesses: seq<ProcessChange>, exited: seq<ProcessChange>,
    modified: seq<FileChange>, deleted: seq<FileChange>,
    listeners: seq<SocketChange>, outbound: seq<SocketChange>,
    restarts: seq<Restart>)

  // ---- what an event is ----

  datatype Kind = Creation | Exit | Modification | Deletion | Listening | Outgoing | Other

  /** The cases of the switch on category and action. */
  function KindOf(e: Event): Kind {
    var k := e.category + ":" + e.action;
    if k == "process:exec" || k == "process:fork" || k == "process:clone" then Creation
    else if k == "process:exit" then Exit
    else if k == "file:write" || k == "file:rename" || k == "file:truncate"
         || k == "file:chmod" || k == "file:chown" || k == "file:mkdir" then Modification
    else if k == "file:unlink" || k == "file:rmdir" then Deletion
    else if k == "network:listen" || k == "network:bind" then Listening
    else if k == "network:connect" || k == "network:send" then Outgoing
    else Other
  }

  function RestartKey(e: Event): string {
    if TrimSpace(e.comm) != "" then e.comm else if e.pid != 0 then Itoa(e.pid) else ""
  }

  function FirstNonEmpty(a: string, b: string): string {
    if TrimSpace(a) != "" then a else if TrimSpace(b) != "" then b else ""
  }

  function ModifiedPath(e: Event): string { FirstNonEmpty(e.path, e.oldPath) }

  /** An event with what the pass looks at it for. */
  datatype Item = Item(ev: Event, kind: Kind, key: string, path: string)

  function Classify(e: Event): Item { Item(e, KindOf(e), RestartKey(e), ModifiedPath(e)) }

  function Classified(es: seq<Event>): (r: seq<Item>)
    ensures |r| == |es| && forall i | 0 <= i < |es| :: r[i] == Classify(es[i])
  {
    seq(|es|, i requires 0 <= i < |es| => Classify(es[i]))
  }

  /** A content write to the path: what hot-writer detection counts. */
  predicate WritesTo(x: Item, path: string) {
    x.kind == Modification && x.ev.action == "write" && path != "" && x.path == path
  }

  // ---- the declarative summary of a window ----

  /** Entry by entry: what f makes of the first i events, in order. */
  function Collect<T>(es: seq<Item>, i: nat, f: Item -> Option<T>): seq<T>
    requires i <= |es|
  {
    if i == 0 then [] else
      match f(es[i - 1]) case Some(x) => Collect(es, i - 1, f) + [x] case None => Collect(es, i - 1, f)
  }

  function ProcessEntry(e: Event): ProcessChange { ProcessChange(e.ts, e.pid, e.comm, e.exe, e.action) }

  function FileEntry(e: Event, path: string): FileChange { FileChange(e.ts, path, 1, e.action) }

  function SocketEntry(e: Event, addr: string, port: int): SocketChange {
    SocketChange(e.ts, e.pid, e.comm, addr + ":" + Itoa(port), e.action)
  }

  function RestartEntry(e: Event): Restart { Restart(e.comm, e.pid, e.ts) }

  function Exited(x: Item): Option<ProcessChange> { if x.kind == Exit then Some(ProcessEntry(x.ev)) else None }

  function Modified(x: Item): Option<FileChange> {
    if x.kind == Modification && x.path != "" then Some(FileEntry(x.ev, x.path)) else None
  }

  function Deleted(x: Item): Option<FileChange> {
    if x.kind == Deletion then Some(FileEntry(x.ev, x.ev.path)) else None
  }

  function Listener(x: Item): Option<SocketChange> {
    if x.kind == Listening then Some(SocketEntry(x.ev, x.ev.localAddr, x.ev.localPort)) else None
  }

  function Outbound(x: Item): Option<SocketChange> {
    if x.kind == Outgoing then Some(SocketEntry(x.ev, x.ev.remoteAddr, x.ev.remotePort)) else None
  }

  predicate CreatedBefore(es: seq<Item>, i: nat, pid: int)
    requires i <= |es|
  {
    exists j | 0 <= j < i :: es[j].kind == Creation && es[j].ev.pid == pid
  }

  /** The i-th event is the first creation of its pid. */
  predicate FirstCreation(es: seq<Item>, i: nat)
    requires i < |es|
  {
    es[i].kind == Creation && !CreatedBefore(es, i, es[i].ev.pid)
  }

  function NewProcesses(es: seq<Item>, i: nat): seq<ProcessChange>
    requires i <= |es|
  {
    if i == 0 then []
    else if FirstCreation(es, i - 1) then NewProcesses(es, i - 1) + [ProcessEntry(es[i - 1].ev)]
    else NewProcesses(es, i - 1)
  }

  predicate ExitOf(x: Item, key: string) { x.kind == Exit && x.key == key }

  /** The most recent exit with the given key among the first i events. */
  function LastExit(es: seq<Item>, i: nat, key: string): Option<Event>
    requires i <= |es|
  {
    if i == 0 then None
    else if ExitOf(es[i - 1], key) then Some(es[i - 1].ev)
    else LastExit(es, i - 1, key)
  }

  ghost predicate NoExitBetween(es: seq<Item>, j: nat, i: nat, key: string)
    requires j <= i <= |es|
  {
    forall k | j <= k < i :: !ExitOf(es[k], key)
  }

  /** Independently of the recursion: the exit found is one with the key and no
      later one has it; and none is found only when there is none. */
  lemma {:induction false} LastExitIsLatest(es: seq<Item>, i: nat, key: string) returns (j: nat)
    requires i <= |es|
    ensures j <= i && NoExitBetween(es, j, i, key)
    ensures LastExit(es, i, key).None? <==> j == 0
    ensures j > 0 ==> ExitOf(es[j - 1], key) && LastExit(es, i, key) == Some(es[j - 1].ev)
  {
    if i == 0 || ExitOf(es[i - 1], key) {
      j := i;
    } else {
      j := LastExitIsLatest(es, i - 1, key);
    }
  }

  /** A creation whose key is not empty and whose key's most recent exit was
      strictly earlier. */
  predicate Restarted(es: seq<Item>, i: nat)
    requires i < |es|
  {
    && es[i].kind == Creation && es[i].key != ""
    && LastExit(es, i, es[i].key).Some?
    && LastExit(es, i, es[i].key).value.ts < es[i].ev.ts
  }

  function Restarts(es: seq<Item>, i: nat): seq<Restart>
    requires i <= |es|
  {
    if i == 0 then []
    else if Restarted(es, i - 1) then Restarts(es, i - 1) + [RestartEntry(es[i - 1].ev)]
    else Restarts(es, i - 1)
  }

  /** The writes to a path among the first i events, in order. */
  function Writes(es: seq<Item>, i: nat, path: string): seq<Event>
    requires i <= |es|
  {
    if i == 0 then []
    else if WritesTo(es[i - 1], path) then Writes(es, i - 1, path) + [es[i - 1].ev]
    else Writes(es, i - 1, path)
  }

  function Summary(es: seq<Item>, i: nat): Report
    requires i <= |es|
  {
    Report(NewProcesses(es, i), Collect(es, i, Exited), Collect(es, i, Modified), Collect(es, i, Deleted),
           Collect(es, i, Listener), Collect(es, i, Outbound), Restarts(es, i))
  }

  /** The path with the number of its writes and the last one's writer. */
  function HotEntry(path: string, w: seq<Event>): HotWriter
    requires w != []
  {
    var last := w[|w| - 1];
    HotWriter(path, last.pid, last.comm, |w|, last.ts)
  }

  /** At least three writes make a hot writer. */
  predicate Hot(es: seq<Item>, h: HotWriter) {
    var w := Writes(es, |es|, h.path);
    |w| >= 3 && h == HotEntry(h.path, w)
  }

  // ---- the one-pass fold ----

  /** What the loop remembers besides the report. */
  datatype Memory = Memory(writes: map<string, seq<Event>>, lastExit: map<string, Event>, seenNewPID: set<int>)

  ghost predicate SeenRight(seen: set<int>, es: seq<Item>, i: nat)
    requires i <= |es|
  {
    forall p :: p in seen <==> CreatedBefore(es, i, p)
  }

  ghost predicate ExitsRight(last: map<string, Event>, es: seq<Item>, i: nat)
    requires i <= |es|
  {
    forall k :: (if k in last then Some(last[k]) else None) == if k == "" then None else LastExit(es, i, k)
  }

  ghost predicate WritesRight(writes: map<string, seq<Event>>, es: seq<Item>, i: nat)
    requires i <= |es|
  {
    forall p :: (if p in writes then writes[p] else []) == Writes(es, i, p) && (p in writes ==> writes[p] != [])
  }

  ghost predicate Remembers(m: Memory, es: seq<Item>, i: nat)
    requires i <= |es|
  {
    SeenRight(m.seenNewPID, es, i) && ExitsRight(m.lastExit, es, i) && WritesRight(m.writes, es, i)
  }

  /** An event of another kind leaves each memory right as it is. */
  lemma MemoryFrame(m: Memory, es: seq<Item>, i: nat)
    requires i < |es| && Remembers(m, es, i)
    ensures es[i].kind != Creation ==> SeenRight(m.seenNewPID, es, i + 1)
    ensures es[i].kind != Exit || es[i].key == "" ==> ExitsRight(m.lastExit, es, i + 1)
    ensures es[i].kind != Modification || es[i].path == "" || es[i].ev.action != "write" ==>
              WritesRight(m.writes, es, i + 1)
  {
    forall p
      ensures CreatedBefore(es, i + 1, p) <==> CreatedBefore(es, i, p) || (es[i].kind == Creation && es[i].ev.pid == p)
    {
    }
  }

  lemma SeeCreation(seen: set<int>, es: seq<Item>, i: nat)
    requires i < |es| && SeenRight(seen, es, i) && es[i].kind == Creation
    ensures SeenRight(seen + {es[i].ev.pid}, es, i + 1)
  {
    forall p ensures CreatedBefore(es, i + 1, p) <==> CreatedBefore(es, i, p) || es[i].ev.pid == p {
    }
  }

  lemma SeeExit(last: map<string, Event>, es: seq<Item>, i: nat)
    requires i < |es| && ExitsRight(last, es, i) && es[i].kind == Exit && es[i].key != ""
    ensures ExitsRight(last[es[i].key := es[i].ev], es, i + 1)
  {}

  lemma SeeWrite(writes: map<string, seq<Event>>, es: seq<Item>, i: nat)
    requires i < |es| && WritesRight(writes, es, i)
    requires es[i].kind == Modification && es[i].path != "" && es[i].ev.action == "write"
    ensures var p := es[i].path;
            WritesRight(writes[p := (if p in writes then writes[p] else []) + [es[i].ev]], es, i + 1)
  {}

  /** One turn of the loop, for each kind of event. */
  method OnCreation(x: Item, report: Report, m: Memory, ghost es: seq<Item>, ghost i: nat)
    returns (r: Report, n: Memory)
    requires i < |es| && es[i] == x && x.kind == Creation && report == Summary(es, i) && Remembers(m, es, i)
    ensures r == Summary(es, i + 1) && Remembers(n, es, i + 1)
  {
    var ev := x.ev;
    r, n := report, m;
    MemoryFrame(m, es, i);
    SeeCreation(m.seenNewPID, es, i);
    if ev.pid !in m.seenNewPID {
      n := n.(seenNewPID := m.seenNewPID + {ev.pid});
      r := r.(newProcesses := r.newProcesses + [ProcessEntry(ev)]);
    }
    assert m.seenNewPID + {ev.pid} == n.seenNewPID;
    var key := x.key;
    assert key in m.lastExit <==> key != "" && LastExit(es, i, key).Some?;
    if key in m.lastExit && ev.ts > m.lastExit[key].ts {
      r := r.(restarts := r.restarts + [RestartEntry(ev)]);
    }
  }

  method OnExit(x: Item, report: Report, m: Memory, ghost es: seq<Item>, ghost i: nat) returns (r: Report, n: Memory)
    requires i < |es| && es[i] == x && x.kind == Exit && report == Summary(es, i) && Remembers(m, es, i)
    ensures r == Summary(es, i + 1) && Remembers(n, es, i + 1)
  {
    MemoryFrame(m, es, i);
    r, n := report.(exited := report.exited + [ProcessEntry(x.ev)]), m;
    if x.key != "" {
      SeeExit(m.lastExit, es, i);
      n := n.(lastExit := m.lastExit[x.key := x.ev]);
    }
  }

  method OnModification(x: Item, report: Report, m: Memory, ghost es: seq<Item>, ghost i: nat)
    returns (r: Report, n: Memory)
    requires i < |es| && es[i] == x && x.kind == Modification && report == Summary(es, i) && Remembers(m, es, i)
    ensures r == Summary(es, i + 1) && Remembers(n, es, i + 1)
  {
    var ev, path := x.ev, x.path;
    MemoryFrame(m, es, i);
    r, n := report, m;
    if path == "" {
      return;
    }
    r := r.(modified := r.modified + [FileEntry(ev, path)]);
    if ev.action == "write" {
      SeeWrite(m.writes, es, i);
      n := n.(writes := m.writes[path := (if path in m.writes then m.writes[path] else []) + [ev]]);
    }
  }

  method OnOther(x: Item, report: Report, m: Memory, ghost es: seq<Item>, ghost i: nat) returns (r: Report)
    requires i < |es| && es[i] == x && x.kind != Creation && x.kind != Exit && x.kind != Modification
    requires report == Summary(es, i) && Remembers(m, es, i)
    ensures r == Summary(es, i + 1) && Remembers(m, es, i + 1)
  {
    var ev := x.ev;
    MemoryFrame(m, es, i);
    r := report;
    match x.kind {
      case Deletion => r := r.(deleted := r.deleted + [FileEntry(ev, ev.path)]);
      case Listening => r := r.(listeners := r.listeners + [SocketEntry(ev, ev.localAddr, ev.localPort)]);
      case Outgoing => r := r.(outbound := r.outbound + [SocketEntry(ev, ev.remoteAddr, ev.remotePort)]);
      case _ =>
    }
  }

  method Turn(x: Item, report: Report, m: Memory, ghost es: seq<Item>, ghost i: nat) returns (r: Report, n: Memory)
    requires i < |es| && es[i] == x && report == Summary(es, i) && Remembers(m, es, i)
    ensures r == Summary(es, i + 1) && Remembers(n, es, i + 1)
  {
    n := m;
    match x.kind {
      case Creation => r, n := OnCreation(x, report, m, es, i);
      case Exit => r, n := OnExit(x, report, m, es, i);
      case Modification => r, n := OnModification(x, report, m, es, i);
      case _ => r := OnOther(x, report, m, es, i);
    }
  }

  lemma NothingSeenYet(es: seq<Item>)
    ensures Remembers(Memory(map[], map[], {}), es, 0)
    ensures Summary(es, 0) == Report([], [], [], [], [], [], [])
  {}

  /** The loop, over classified events. */
  method Fold(es: seq<Item>) returns (report: Report, hot: seq<HotWriter>)
    ensures report == Summary(es, |es|)
    ensures forall h :: h in hot <==> Hot(es, h)
    ensures forall i, j | 0 <= i < j < |hot| :: hot[i].path != hot[j].path
  {
    NothingSeenYet(es);
    report := Report([], [], [], [], [], [], []);
    var m := Memory(map[], map[], {});
    for i := 0 to |es|
      invariant report == Summary(es, i) && Remembers(m, es, i)
    {
      report, m := Turn(es[i], report, m, es, i);
    }
    hot := HotWriters(m.writes, es);
  }

  /** Diff over the events of a window: the one-pass report is the declarative
      summary, and the hot writers - in whatever order the map yields them - are
      exactly the paths with at least three writes, each once. */
  method Diff(events: seq<Event>) returns (report: Report, hot: seq<HotWriter>)
    ensures report == Summary(Classified(events), |events|)
    ensures forall h :: h in hot <==> Hot(Classified(events), h)
    ensures forall i, j | 0 <= i < j < |hot| :: hot[i].path != hot[j].path
  {
    report, hot := Fold(Classified(events));
  }

  method HotWriters(writes: map<string, seq<Event>>, ghost es: seq<Item>) returns (hot: seq<HotWriter>)
    requires WritesRight(writes, es, |es|)
    ensures forall h :: h in hot <==> Hot(es, h)
    ensures forall i, j | 0 <= i < j < |hot| :: hot[i].path != hot[j].path
  {
    hot := [];
    var left := writes.Keys;
    while left != {}
      invariant left <= writes.Keys
      invariant forall h :: h in hot <==> Hot(es, h) && h.path !in left
      invariant forall i, j | 0 <= i < j < |hot| :: hot[i].path != hot[j].path
      decreases |left|
    {
      var path :| path in left;
      var evs := writes[path];
      assert forall h | h in hot :: h.path != path;
      assert forall i | 0 <= i < |hot| :: hot[i] in hot;
      left := left - {path};
      if |evs| >= 3 {
        hot := hot + [HotEntry(path, evs)];
      }
    }
  }

  // ---- splitting the window ----

  lemma {:induction false} CollectPrefix<T>(xs: seq<Item>, ys: seq<Item>, i: nat, f: Item -> Option<T>)
    requires i <= |xs|
    ensures Collect(xs + ys, i, f) == Collect(xs, i, f)
  {
    if i > 0 {
      CollectPrefix(xs, ys, i - 1, f);
      assert (xs + ys)[i - 1] == xs[i - 1];
    }
  }

  lemma {:induction false} CollectSplits<T>(xs: seq<Item>, ys: seq<Item>, i: nat, f: Item -> Option<T>)
    requires i <= |ys|
    ensures Collect(xs + ys, |xs| + i, f) == Collect(xs, |xs|, f) + Collect(ys, i, f)
  {
    if i == 0 {
      CollectPrefix(xs, ys, |xs|, f);
      assert Collect(xs, |xs|, f) + [] == Collect(xs, |xs|, f);
    } else {
      CollectSplits(xs, ys, i - 1, f);
      assert (xs + ys)[|xs| + i - 1] == ys[i - 1];
    }
  }

  lemma CollectConcat<T>(xs: seq<Item>, ys: seq<Item>, f: Item -> Option<T>)
    ensures Collect(xs + ys, |xs + ys|, f) == Collect(xs, |xs|, f) + Collect(ys, |ys|, f)
  {
    CollectSplits(xs, ys, |ys|, f);
  }

  /** The new processes among the first i events that are not in old. */
  function NewProcessesBeyond(es: seq<Item>, i: nat, known: set<int>): seq<ProcessChange>
    requires i <= |es|
  {
    if i == 0 then []
    else if FirstCreation(es, i - 1) && es[i - 1].ev.pid !in known
    then NewProcessesBeyond(es, i - 1, known) + [ProcessEntry(es[i - 1].ev)]
    else NewProcessesBeyond(es, i - 1, known)
  }

  function CreatedPids(es: seq<Item>): set<int> {
    set j | 0 <= j < |es| && es[j].kind == Creation :: es[j].ev.pid
  }

  lemma CreatedSplits(xs: seq<Item>, ys: seq<Item>, i: nat, pid: int)
    requires i <= |ys|
    ensures CreatedBefore(xs + ys, |xs| + i, pid) <==> pid in CreatedPids(xs) || CreatedBefore(ys, i, pid)
  {
    var n := |xs|;
    if CreatedBefore(xs + ys, n + i, pid) {
      var j :| 0 <= j < n + i && (xs + ys)[j].kind == Creation && (xs + ys)[j].ev.pid == pid;
      if j < n { assert xs[j].kind == Creation; } else { assert ys[j - n].kind == Creation; }
    }
    if pid in CreatedPids(xs) {
      var j :| 0 <= j < n && xs[j].kind == Creation && xs[j].ev.pid == pid;
      assert (xs + ys)[j].kind == Creation;
    }
    if CreatedBefore(ys, i, pid) {
      var j :| 0 <= j < i && ys[j].kind == Creation && ys[j].ev.pid == pid;
      assert (xs + ys)[n + j].kind == Creation;
    }
  }

  lemma CreatedPrefix(xs: seq<Item>, ys: seq<Item>, i: nat, pid: int)
    requires i <= |xs|
    ensures CreatedBefore(xs + ys, i, pid) <==> CreatedBefore(xs, i, pid)
  {
    if CreatedBefore(xs + ys, i, pid) {
      var j :| 0 <= j < i && (xs + ys)[j].kind == Creation && (xs + ys)[j].ev.pid == pid;
      assert xs[j].kind == Creation;
    }
    if CreatedBefore(xs, i, pid) {
      var j :| 0 <= j < i && xs[j].kind == Creation && xs[j].ev.pid == pid;
      assert (xs + ys)[j].kind == Creation;
    }
  }

  lemma {:induction false} NewProcessesSplit(xs: seq<Item>, ys: seq<Item>, i: nat)
    requires i <= |xs + ys|
    ensures NewProcesses(xs + ys, i) ==
            if i <= |xs| then NewProcesses(xs, i)
            else NewProcesses(xs, |xs|) + NewProcessesBeyond(ys, i - |xs|, CreatedPids(xs))
  {
    if i > 0 {
      NewProcessesSplit(xs, ys, i - 1);
      var pid := (xs + ys)[i - 1].ev.pid;
      if i <= |xs| {
        CreatedPrefix(xs, ys, i - 1, pid);
      } else {
        CreatedSplits(xs, ys, i - 1 - |xs|, pid);
      }
    }
  }

  lemma {:induction false} WritesSplit(xs: seq<Item>, ys: seq<Item>, i: nat, path: string)
    requires i <= |xs + ys|
    ensures Writes(xs + ys, i, path) ==
            if i <= |xs| then Writes(xs, i, path) else Writes(xs, |xs|, path) + Writes(ys, i - |xs|, path)
  {
    if i > 0 {
      WritesSplit(xs, ys, i - 1, path);
    }
  }

  /** The most recent exit with the key, looked for in the first i of es and then
      in the events before them. */
  function LastExitAfter(earlier: seq<Item>, es: seq<Item>, i: nat, key: string): Option<Event>
    requires i <= |es|
  {
    if LastExit(es, i, key).Some? then LastExit(es, i, key) else LastExit(earlier, |earlier|, key)
  }

  /** A restart, judged with the exits of the events before as well. */
  predicate RestartedAfter(earlier: seq<Item>, es: seq<Item>, i: nat)
    requires i < |es|
  {
    && es[i].kind == Creation && es[i].key != ""
    && LastExitAfter(earlier, es, i, es[i].key).Some?
    && LastExitAfter(earlier, es, i, es[i].key).value.ts < es[i].ev.ts
  }

  function RestartsAfter(earlier: seq<Item>, es: seq<Item>, i: nat): seq<Restart>
    requires i <= |es|
  {
    if i == 0 then []
    else if RestartedAfter(earlier, es, i - 1) then RestartsAfter(earlier, es, i - 1) + [RestartEntry(es[i - 1].ev)]
    else RestartsAfter(earlier, es, i - 1)
  }

  lemma {:induction false} LastExitPrefix(xs: seq<Item>, ys: seq<Item>, i: nat, key: string)
    requires i <= |xs|
    ensures LastExit(xs + ys, i, key) == LastExit(xs, i, key)
  {
    if i > 0 {
      LastExitPrefix(xs, ys, i - 1, key);
      assert (xs + ys)[i - 1] == xs[i - 1];
    }
  }

  lemma {:induction false} LastExitSplits(xs: seq<Item>, ys: seq<Item>, i: nat, key: string)
    requires i <= |ys|
    ensures LastExit(xs + ys, |xs| + i, key) == LastExitAfter(xs, ys, i, key)
  {
    if i == 0 {
      LastExitPrefix(xs, ys, |xs|, key);
    } else {
      LastExitSplits(xs, ys, i - 1, key);
      assert (xs + ys)[|xs| + i - 1] == ys[i - 1];
    }
  }

  lemma {:induction false} RestartsPrefix(xs: seq<Item>, ys: seq<Item>, i: nat)
    requires i <= |xs|
    ensures Restarts(xs + ys, i) == Restarts(xs, i)
  {
    if i > 0 {
      RestartsPrefix(xs, ys, i - 1);
      assert (xs + ys)[i - 1] == xs[i - 1];
      LastExitPrefix(xs, ys, i - 1, xs[i - 1].key);
    }
  }

  lemma {:induction false} RestartsSplit(xs: seq<Item>, ys: seq<Item>, i: nat)
    requires i <= |ys|
    ensures Restarts(xs + ys, |xs| + i) == Restarts(xs, |xs|) + RestartsAfter(xs, ys, i)
  {
    if i == 0 {
      RestartsPrefix(xs, ys, |xs|);
      assert Restarts(xs, |xs|) + [] == Restarts(xs, |xs|);
    } else {
      RestartsSplit(xs, ys, i - 1);
      assert (xs + ys)[|xs| + i - 1] == ys[i - 1];
      LastExitSplits(xs, ys, i - 1, ys[i - 1].key);
    }
  }

  lemma RestartsConcat(xs: seq<Item>, ys: seq<Item>)
    ensures Restarts(xs + ys, |xs + ys|) == Restarts(xs, |xs|) + RestartsAfter(xs, ys, |ys|)
  {
    RestartsSplit(xs, ys, |ys|);
  }

  lemma NewProcessesConcat(xs: seq<Item>, ys: seq<Item>)
    ensures NewProcesses(xs + ys, |xs + ys|) == NewProcesses(xs, |xs|) + NewProcessesBeyond(ys, |ys|, CreatedPids(xs))
  {
    NewProcessesSplit(xs, ys, |xs + ys|);
    if ys == [] { assert NewProcesses(xs, |xs|) + [] == NewProcesses(xs, |xs|); }
  }

  lemma WritesConcat(xs: seq<Item>, ys: seq<Item>, path: string)
    ensures Writes(xs + ys, |xs + ys|, path) == Writes(xs, |xs|, path) + Writes(ys, |ys|, path)
  {
    WritesSplit(xs, ys, |xs + ys|, path);
    if ys == [] { assert Writes(xs, |xs|, path) + [] == Writes(xs, |xs|, path); }
  }

  lemma ClassifiedConcat(xs: seq<Event>, ys: seq<Event>)
    ensures Classified(xs + ys) == Classified(xs) + Classified(ys)
  {}

  /** A window split in two, below the row limit: five lists are concatenations;
      the new processes are those of the first part and then those of the second
      whose pid the first has not created; the restarts are those of the first part
      and then those of the second, judged with the first part's exits; and the
      writes to a path are those of both parts, before any threshold. */
  lemma {:induction false} WindowsCompose(events: seq<Event>, more: seq<Event>, path: string)
    ensures var xs, ys, all := Classified(events), Classified(more), Classified(events + more);
            var x, y, s := Summary(xs, |xs|), Summary(ys, |ys|), Summary(all, |all|);
            && s.exited == x.exited + y.exited && s.modified == x.modified + y.modified
            && s.deleted == x.deleted + y.deleted && s.listeners == x.listeners + y.listeners
            && s.outbound == x.outbound + y.outbound
            && s.newProcesses == x.newProcesses + NewProcessesBeyond(ys, |ys|, CreatedPids(xs))
            && s.restarts == x.restarts + RestartsAfter(xs, ys, |ys|)
            && Writes(all, |all|, path) == Writes(xs, |xs|, path) + Writes(ys, |ys|, path)
  {
    ClassifiedConcat(events, more);
    ItemsCompose(Classified(events), Classified(more), path);
  }

  lemma ItemsCompose(xs: seq<Item>, ys: seq<Item>, path: string)
    ensures var all := xs + ys;
            var x, y, s := Summary(xs, |xs|), Summary(ys, |ys|), Summary(all, |all|);
            && s.exited == x.exited + y.exited && s.modified == x.modified + y.modified
            && s.deleted == x.deleted + y.deleted && s.listeners == x.listeners + y.listeners
            && s.outbound == x.outbound + y.outbound
            && s.newProcesses == x.newProcesses + NewProcessesBeyond(ys, |ys|, CreatedPids(xs))
            && s.restarts == x.restarts + RestartsAfter(xs, ys, |ys|)
            && Writes(all, |all|, path) == Writes(xs, |xs|, path) + Writes(ys, |ys|, path)
  {
    CollectConcat(xs, ys, Exited);
    CollectConcat(xs, ys, Modified);
    CollectConcat(xs, ys, Deleted);
    CollectConcat(xs, ys, Listener);
    CollectConcat(xs, ys, Outbound);
    NewProcessesConcat(xs, ys);
    RestartsConcat(xs, ys);
    WritesConcat(xs, ys, path);
  }
}
