/** What diff reports, said of the events themselves: which categories and actions
    feed which list, with the fields each entry is made of. */
module DiffMeaning {
  import opened Text
  import opened Events
  import opened Diff

  /** An entry for every event that is selected in the light of those before it. */
  function Picked<T>(es: seq<Event>, select: (seq<Event>, Event) -> bool, entry: Event -> T): seq<T> {
    if es == [] then [] else
      var front, last := es[..|es| - 1], es[|es| - 1];
      if select(front, last) then Picked(front, select, entry) + [entry(last)] else Picked(front, select, entry)
  }

  // ---- category and action ----

  /** Joining with a colon loses nothing when neither part has one. */
  lemma Joined(category: string, action: string, c: string, a: string, joined: string)
    requires ':' !in c && ':' !in a && joined == c + ":" + a
    ensures category + ":" + action == joined <==> category == c && action == a
  {
    var other := category + ":" + action;
    if other == joined {
      assert joined[|category|] == ':' && forall i | 0 <= i < |joined| && i != |c| :: joined[i] != ':';
      assert category == other[..|category|] == joined[..|c|] == c;
      assert action == other[|category| + 1..] == joined[|c| + 1..] == a;
    }
  }

  lemma ProcessJoined(e: Event, action: string, joined: string)
    requires ':' !in action && joined == "process" + ":" + action
    ensures e.category + ":" + e.action == joined <==> e.category == "process" && e.action == action
  {
    Joined(e.category, e.action, "process", action, joined);
  }

  lemma FileJoined(e: Event, action: string, joined: string)
    requires ':' !in action && joined == "file" + ":" + action
    ensures e.category + ":" + e.action == joined <==> e.category == "file" && e.action == action
  {
    Joined(e.category, e.action, "file", action, joined);
  }

  lemma NetworkJoined(e: Event, action: string, joined: string)
    requires ':' !in action && joined == "network" + ":" + action
    ensures e.category + ":" + e.action == joined <==> e.category == "network" && e.action == action
  {
    Joined(e.category, e.action, "network", action, joined);
  }

  predicate Creates(e: Event) {
    e.category == "process" && (e.action == "exec" || e.action == "fork" || e.action == "clone")
  }

  predicate Exits(e: Event) { e.category == "process" && e.action == "exit" }

  predicate Changes(e: Event) {
    && e.category == "file"
    && (|| e.action == "write" || e.action == "rename" || e.action == "truncate"
        || e.action == "chmod" || e.action == "chown" || e.action == "mkdir")
  }

  predicate Deletes(e: Event) { e.category == "file" && (e.action == "unlink" || e.action == "rmdir") }

  predicate Listens(e: Event) { e.category == "network" && (e.action == "listen" || e.action == "bind") }

  predicate Connects(e: Event) { e.category == "network" && (e.action == "connect" || e.action == "send") }

  predicate ProcessKey(k: string) { k == "process:exec" || k == "process:fork" || k == "process:clone" }

  predicate ChangeKey(k: string) {
    || k == "file:write" || k == "file:rename" || k == "file:truncate"
    || k == "file:chmod" || k == "file:chown" || k == "file:mkdir"
  }

  lemma ProcessKeys(e: Event)
    ensures var k := e.category + ":" + e.action;
            (ProcessKey(k) <==> Creates(e)) && (k == "process:exit" <==> Exits(e))
  {
    ProcessJoined(e, "exec", "process:exec");
    ProcessJoined(e, "fork", "process:fork");
    ProcessJoined(e, "clone", "process:clone");
    ProcessJoined(e, "exit", "process:exit");
  }

  lemma ChangeKeys(e: Event)
    ensures ChangeKey(e.category + ":" + e.action) <==> Changes(e)
  {
    FileJoined(e, "write", "file:write");
    FileJoined(e, "rename", "file:rename");
    FileJoined(e, "truncate", "file:truncate");
    FileJoined(e, "chmod", "file:chmod");
    FileJoined(e, "chown", "file:chown");
    FileJoined(e, "mkdir", "file:mkdir");
  }

  lemma OtherKeys(e: Event)
    ensures var k := e.category + ":" + e.action;
            && (k == "file:unlink" || k == "file:rmdir" <==> Deletes(e))
            && (k == "network:listen" || k == "network:bind" <==> Listens(e))
            && (k == "network:connect" || k == "network:send" <==> Connects(e))
  {
    FileJoined(e, "unlink", "file:unlink");
    FileJoined(e, "rmdir", "file:rmdir");
    NetworkJoined(e, "listen", "network:listen");
    NetworkJoined(e, "bind", "network:bind");
    NetworkJoined(e, "connect", "network:connect");
    NetworkJoined(e, "send", "network:send");
  }

  lemma KindIsSpelled(e: Event)
    ensures KindOf(e) ==
            if Creates(e) then Creation
            else if Exits(e) then Exit
            else if Changes(e) then Modification
            else if Deletes(e) then Deletion
            else if Listens(e) then Listening
            else if Connects(e) then Outgoing
            else Other
  {
    ProcessKeys(e);
    ChangeKeys(e);
    OtherKeys(e);
  }

  // ---- name and path ----

  /** What a process is recognised by: its name or, when that is blank, its pid. */
  function Identity(e: Event): string {
    if !Blank(e.comm) then e.comm else if e.pid != 0 then Itoa(e.pid) else ""
  }

  /** The path a change is booked on. */
  function Place(e: Event): string { if !Blank(e.path) then e.path else if !Blank(e.oldPath) then e.oldPath else "" }

  lemma KeyAndPathAreSpelled(e: Event)
    ensures RestartKey(e) == Identity(e) && ModifiedPath(e) == Place(e)
  {
    TrimSpaceKeeps(e.comm);
    TrimSpaceKeeps(e.path);
    TrimSpaceKeeps(e.oldPath);
  }

  /** An item says of its event what the predicates above say. */
  ghost predicate Reads(x: Item, e: Event) {
    && x.ev == e && x.key == Identity(e) && x.path == Place(e)
    && (x.kind == Creation <==> Creates(e)) && (x.kind == Exit <==> Exits(e))
    && (x.kind == Modification <==> Changes(e)) && (x.kind == Deletion <==> Deletes(e))
    && (x.kind == Listening <==> Listens(e)) && (x.kind == Outgoing <==> Connects(e))
  }

  ghost predicate ReadAll(xs: seq<Item>, es: seq<Event>) {
    |xs| == |es| && forall i | 0 <= i < |es| :: Reads(xs[i], es[i])
  }

  lemma ClassifyReads(e: Event)
    ensures Reads(Classify(e), e)
  {
    KindIsSpelled(e);
    KeyAndPathAreSpelled(e);
    assert Creates(e) || Exits(e) ==> e.category == "process";
    assert Changes(e) || Deletes(e) ==> e.category == "file";
    assert Listens(e) || Connects(e) ==> e.category == "network";
    assert Changes(e) ==> !Deletes(e);
    assert Listens(e) ==> !Connects(e);
  }

  lemma ClassifiedReads(es: seq<Event>)
    ensures ReadAll(Classified(es), es)
  {
    forall i | 0 <= i < |es| ensures Reads(Classified(es)[i], es[i]) {
      ClassifyReads(es[i]);
    }
  }

  // ---- the lists of the report ----

  /** The events selected, counted. */
  function Count(es: seq<Event>, select: (seq<Event>, Event) -> bool): nat {
    if es == [] then 0 else
      Count(es[..|es| - 1], select) + if select(es[..|es| - 1], es[|es| - 1]) then 1 else 0
  }

  /** What Picked means, entry by entry: every selected event has one entry, at the
      place given by the number of those selected before it, and there is no other. */
  lemma {:induction false} PickedInOrder<T>(es: seq<Event>, select: (seq<Event>, Event) -> bool, entry: Event -> T)
    ensures |Picked(es, select, entry)| == Count(es, select)
    ensures forall i | 0 <= i < |es| && select(es[..i], es[i]) ::
              && Count(es[..i], select) < Count(es, select)
              && Picked(es, select, entry)[Count(es[..i], select)] == entry(es[i])
  {
    if es != [] {
      var front := es[..|es| - 1];
      PickedInOrder(front, select, entry);
      forall i | 0 <= i < |es| && select(es[..i], es[i])
        ensures Count(es[..i], select) < Count(es, select)
        ensures Picked(es, select, entry)[Count(es[..i], select)] == entry(es[i])
      {
        if i < |front| {
          assert es[..i] == front[..i] && es[i] == front[i];
        } else {
          assert es[..i] == front;
        }
      }
    }
  }

  lemma {:induction false} PickedAre<T>(
      xs: seq<Item>, es: seq<Event>, i: nat, f: Item -> Option<T>,
      select: (seq<Event>, Event) -> bool, entry: Event -> T)
    requires i <= |es| == |xs|
    requires forall j | 0 <= j < |es| :: f(xs[j]) == if select(es[..j], es[j]) then Some(entry(es[j])) else None
    ensures Collect(xs, i, f) == Picked(es[..i], select, entry)
  {
    if i > 0 {
      PickedAre(xs, es, i - 1, f, select, entry);
      var b := es[..i];
      assert b[..|b| - 1] == es[..i - 1] && b[|b| - 1] == es[i - 1];
    }
  }

  lemma ListsArePicked(xs: seq<Item>, es: seq<Event>)
    requires ReadAll(xs, es)
    ensures Collect(xs, |xs|, Exited) ==
            Picked(es, (b: seq<Event>, e: Event) => Exits(e),
                   (e: Event) => ProcessChange(e.ts, e.pid, e.comm, e.exe, e.action))
    ensures Collect(xs, |xs|, Modified) ==
            Picked(es, (b: seq<Event>, e: Event) => Changes(e) && Place(e) != "",
                   (e: Event) => FileChange(e.ts, Place(e), 1, e.action))
    ensures Collect(xs, |xs|, Deleted) ==
            Picked(es, (b: seq<Event>, e: Event) => Deletes(e),
                   (e: Event) => FileChange(e.ts, e.path, 1, e.action))
  {
    assert es[..|es|] == es;
    PickedAre(xs, es, |es|, Exited, (b: seq<Event>, e: Event) => Exits(e),
              (e: Event) => ProcessChange(e.ts, e.pid, e.comm, e.exe, e.action));
    PickedAre(xs, es, |es|, Modified, (b: seq<Event>, e: Event) => Changes(e) && Place(e) != "",
              (e: Event) => FileChange(e.ts, Place(e), 1, e.action));
    PickedAre(xs, es, |es|, Deleted, (b: seq<Event>, e: Event) => Deletes(e),
              (e: Event) => FileChange(e.ts, e.path, 1, e.action));
  }

  lemma SocketsArePicked(xs: seq<Item>, es: seq<Event>)
    requires ReadAll(xs, es)
    ensures Collect(xs, |xs|, Listener) ==
            Picked(es, (b: seq<Event>, e: Event) => Listens(e),
                   (e: Event) => SocketChange(e.ts, e.pid, e.comm, e.localAddr + ":" + Itoa(e.localPort), e.action))
    ensures Collect(xs, |xs|, Outbound) ==
            Picked(es, (b: seq<Event>, e: Event) => Connects(e),
                   (e: Event) => SocketChange(e.ts, e.pid, e.comm, e.remoteAddr + ":" + Itoa(e.remotePort), e.action))
  {
    assert es[..|es|] == es;
    PickedAre(xs, es, |es|, Listener, (b: seq<Event>, e: Event) => Listens(e),
              (e: Event) => SocketChange(e.ts, e.pid, e.comm, e.localAddr + ":" + Itoa(e.localPort), e.action));
    PickedAre(xs, es, |es|, Outbound, (b: seq<Event>, e: Event) => Connects(e),
              (e: Event) => SocketChange(e.ts, e.pid, e.comm, e.remoteAddr + ":" + Itoa(e.remotePort), e.action));
  }

  // ---- new processes ----

  /** A creation of a pid that no earlier event created. */
  predicate Fresh(b: seq<Event>, e: Event) { Creates(e) && forall x | x in b :: !(Creates(x) && x.pid == e.pid) }

  lemma FirstCreationIsFresh(xs: seq<Item>, es: seq<Event>, i: nat)
    requires ReadAll(xs, es) && i < |es|
    ensures FirstCreation(xs, i) <==> Fresh(es[..i], es[i])
  {
    if CreatedBefore(xs, i, es[i].pid) {
      var j :| 0 <= j < i && xs[j].kind == Creation && xs[j].ev.pid == es[i].pid;
      assert es[..i][j] == es[j] && Reads(xs[j], es[j]);
    } else {
      forall x | x in es[..i] ensures !(Creates(x) && x.pid == es[i].pid) {
        var j :| 0 <= j < i && es[..i][j] == x;
        assert Reads(xs[j], es[j]);
      }
    }
  }

  lemma {:induction false} NewProcessesArePicked(xs: seq<Item>, es: seq<Event>, i: nat)
    requires ReadAll(xs, es) && i <= |es|
    ensures NewProcesses(xs, i) ==
            Picked(es[..i], Fresh, (e: Event) => ProcessChange(e.ts, e.pid, e.comm, e.exe, e.action))
  {
    if i > 0 {
      NewProcessesArePicked(xs, es, i - 1);
      FirstCreationIsFresh(xs, es, i - 1);
      var b := es[..i];
      assert b[..|b| - 1] == es[..i - 1] && b[|b| - 1] == es[i - 1];
    }
  }

  /** The pids of the new processes are those that some event creates. */
  lemma {:induction false} FreshPids(es: seq<Event>, pid: int)
    ensures (exists p :: p in Picked(es, Fresh, (e: Event) => ProcessChange(e.ts, e.pid, e.comm, e.exe, e.action))
                         && p.pid == pid) <==>
            exists x :: x in es && Creates(x) && x.pid == pid
  {
    if es != [] {
      var front, last := es[..|es| - 1], es[|es| - 1];
      assert es == front + [last];
      FreshPids(front, pid);
      var entry := (e: Event) => ProcessChange(e.ts, e.pid, e.comm, e.exe, e.action);
      var ps, qs := Picked(front, Fresh, entry), Picked(es, Fresh, entry);
      assert qs == if Fresh(front, last) then ps + [entry(last)] else ps;
      if Fresh(front, last) {
        assert qs[|ps|] == entry(last) && forall p :: p in qs <==> p in ps || p == entry(last);
      }
    }
  }

  // ---- restarts ----

  predicate ExitsAs(e: Event, identity: string) { Exits(e) && Identity(e) == identity }

  /** The j-th event is the latest exit with the identity. */
  predicate LeftAt(b: seq<Event>, j: nat, identity: string) {
    j < |b| && ExitsAs(b[j], identity) && forall k | j < k < |b| :: !ExitsAs(b[k], identity)
  }

  predicate EarlierAt(b: seq<Event>, j: nat, identity: string, ts: int) {
    LeftAt(b, j, identity) && b[j].ts < ts
  }

  /** The latest exit with the identity was strictly earlier than ts. */
  predicate Left(b: seq<Event>, identity: string, ts: int) {
    exists j: nat | j < |b| :: EarlierAt(b, j, identity, ts)
  }

  /** A creation by a process known by name or pid whose latest exit was earlier. */
  predicate Returns(b: seq<Event>, e: Event) { Creates(e) && Identity(e) != "" && Left(b, Identity(e), e.ts) }

  lemma OneMoreAt(b: seq<Event>, e: Event, j: nat, identity: string, ts: int)
    requires j <= |b|
    ensures EarlierAt(b + [e], j, identity, ts) <==>
            if j == |b| then ExitsAs(e, identity) && e.ts < ts
            else EarlierAt(b, j, identity, ts) && !ExitsAs(e, identity)
  {
    var all := b + [e];
    assert all[|b|] == e && forall k | 0 <= k < |b| :: all[k] == b[k];
  }

  lemma OneMoreExit(b: seq<Event>, e: Event, identity: string, ts: int)
    ensures Left(b + [e], identity, ts) <==> if ExitsAs(e, identity) then e.ts < ts else Left(b, identity, ts)
  {
    OneMoreAt(b, e, |b|, identity, ts);
    if Left(b + [e], identity, ts) {
      var j: nat :| j < |b + [e]| && EarlierAt(b + [e], j, identity, ts);
      OneMoreAt(b, e, j, identity, ts);
    }
    if Left(b, identity, ts) {
      var j: nat :| j < |b| && EarlierAt(b, j, identity, ts);
      OneMoreAt(b, e, j, identity, ts);
    }
  }

  lemma ExitsAgree(x: Item, e: Event, key: string)
    requires Reads(x, e)
    ensures x.ev == e && (ExitOf(x, key) <==> ExitsAs(e, key))
  {}

  lemma {:induction false} LastExitLeft(xs: seq<Item>, es: seq<Event>, i: nat, key: string, ts: int)
    requires i <= |es| == |xs|
    requires forall j | 0 <= j < i :: xs[j].ev == es[j] && (ExitOf(xs[j], key) <==> ExitsAs(es[j], key))
    ensures Left(es[..i], key, ts) <==> LastExit(xs, i, key).Some? && LastExit(xs, i, key).value.ts < ts
  {
    if i > 0 {
      LastExitLeft(xs, es, i - 1, key, ts);
      assert es[..i] == es[..i - 1] + [es[i - 1]];
      OneMoreExit(es[..i - 1], es[i - 1], key, ts);
    }
  }

  lemma RestartedReturns(xs: seq<Item>, es: seq<Event>, i: nat)
    requires ReadAll(xs, es) && i < |es|
    ensures xs[i].ev == es[i] && (Restarted(xs, i) <==> Returns(es[..i], es[i]))
  {
    var e := es[i];
    assert Reads(xs[i], e);
    forall j | 0 <= j < i ensures xs[j].ev == es[j] && (ExitOf(xs[j], Identity(e)) <==> ExitsAs(es[j], Identity(e))) {
      ExitsAgree(xs[j], es[j], Identity(e));
    }
    LastExitLeft(xs, es, i, Identity(e), e.ts);
  }

  lemma {:induction false} RestartsArePicked(xs: seq<Item>, es: seq<Event>, i: nat)
    requires ReadAll(xs, es) && i <= |es|
    ensures Restarts(xs, i) == Picked(es[..i], Returns, (e: Event) => Restart(e.comm, e.pid, e.ts))
  {
    if i > 0 {
      var b, e := es[..i], es[i - 1];
      RestartsArePicked(xs, es, i - 1);
      RestartedReturns(xs, es, i - 1);
      assert b[..|b| - 1] == es[..i - 1] && b[|b| - 1] == e;
    }
  }

  // ---- hot writers ----

  function ContentWrite(path: string): (seq<Event>, Event) -> bool {
    (b: seq<Event>, e: Event) =>
      e.category == "file" && e.action == "write" && Place(e) == path != ""
  }

  lemma {:induction false} WritesArePicked(xs: seq<Item>, es: seq<Event>, i: nat, path: string)
    requires ReadAll(xs, es) && i <= |es|
    ensures Writes(xs, i, path) ==
            Picked(es[..i], ContentWrite(path), (e: Event) => e)
  {
    if i > 0 {
      var b := es[..i];
      WritesArePicked(xs, es, i - 1, path);
      assert Reads(xs[i - 1], es[i - 1]);
      assert b[..|b| - 1] == es[..i - 1] && b[|b| - 1] == es[i - 1];
    }
  }

  lemma HistoryIsPicked(xs: seq<Item>, es: seq<Event>)
    requires ReadAll(xs, es)
    ensures NewProcesses(xs, |xs|) ==
            Picked(es, Fresh, (e: Event) => ProcessChange(e.ts, e.pid, e.comm, e.exe, e.action))
    ensures Restarts(xs, |xs|) == Picked(es, Returns, (e: Event) => Restart(e.comm, e.pid, e.ts))
  {
    NewProcessesArePicked(xs, es, |es|);
    RestartsArePicked(xs, es, |es|);
    assert es[..|es|] == es;
  }

  lemma WritesMean(es: seq<Event>, path: string)
    ensures Writes(Classified(es), |es|, path) == Picked(es, ContentWrite(path), (e: Event) => e)
  {
    ClassifiedReads(es);
    WritesArePicked(Classified(es), es, |es|, path);
    assert es[..|es|] == es;
  }

  // ---- the report ----

  /** The whole report, in terms of the events: each list has an entry for exactly the
      events named, in their order. */
  lemma ReportMeans(es: seq<Event>)
    ensures Summary(Classified(es), |es|) ==
            Report(
              Picked(es, Fresh, (e: Event) => ProcessChange(e.ts, e.pid, e.comm, e.exe, e.action)),
              Picked(es, (b: seq<Event>, e: Event) => Exits(e),
                     (e: Event) => ProcessChange(e.ts, e.pid, e.comm, e.exe, e.action)),
              Picked(es, (b: seq<Event>, e: Event) => Changes(e) && Place(e) != "",
                     (e: Event) => FileChange(e.ts, Place(e), 1, e.action)),
              Picked(es, (b: seq<Event>, e: Event) => Deletes(e),
                     (e: Event) => FileChange(e.ts, e.path, 1, e.action)),
              Picked(es, (b: seq<Event>, e: Event) => Listens(e),
                     (e: Event) => SocketChange(e.ts, e.pid, e.comm, e.localAddr + ":" + Itoa(e.localPort), e.action)),
              Picked(es, (b: seq<Event>, e: Event) => Connects(e),
                     (e: Event) =>
                       SocketChange(e.ts, e.pid, e.comm, e.remoteAddr + ":" + Itoa(e.remotePort), e.action)),
              Picked(es, Returns, (e: Event) => Restart(e.comm, e.pid, e.ts)))
  {
    var xs := Classified(es);
    ClassifiedReads(es);
    ListsArePicked(xs, es);
    SocketsArePicked(xs, es);
    HistoryIsPicked(xs, es);
  }

  lemma NewPids(es: seq<Event>, pid: int)
    ensures (exists p :: p in Summary(Classified(es), |es|).newProcesses && p.pid == pid) <==>
            exists e :: && e in es && e.pid == pid && e.category == "process"
                        && (e.action == "exec" || e.action == "fork" || e.action == "clone")
  {
    ClassifiedReads(es);
    HistoryIsPicked(Classified(es), es);
    FreshPids(es, pid);
    assert forall e :: Creates(e) <==>
      e.category == "process" && (e.action == "exec" || e.action == "fork" || e.action == "clone");
  }

  /** A path is hot from its third content write on, and is reported with their
      number and with the pid, name and time of the last. */
  lemma HotMeans(es: seq<Event>, h: HotWriter)
    ensures Hot(Classified(es), h) <==>
            var w := Picked(es, ContentWrite(h.path), (e: Event) => e);
            |w| >= 3 && h == HotWriter(h.path, w[|w| - 1].pid, w[|w| - 1].comm, |w|, w[|w| - 1].ts)
  {
    WritesMean(es, h.path);
  }
}
