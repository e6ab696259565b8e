/** storage.Event, as far as any modelled code looks at it, and the arithmetic of
    its DroppedBefore field. */
module Events {
  datatype Event = Event(
    ts: int, category: string, action: string, pid: int, uid: int, comm: string, exe: string,
    containerId: string, cgroupPath: string, path: string, oldPath: string,
    localAddr: string, localPort: int, remoteAddr: string, remotePort: int, remoteHost: string,
    droppedBefore: int)

  /** The event itself, whatever losses were booked on it. */
  function Payload(e: Event): Event { e.(droppedBefore := 0) }

  function Payloads(es: seq<Event>): seq<Event> {
    if es == [] then [] else Payloads(es[..|es| - 1]) + [Payload(es[|es| - 1])]
  }

  /** SUM(dropped_before) */
  function DropSum(es: seq<Event>): int {
    if es == [] then 0 else DropSum(es[..|es| - 1]) + es[|es| - 1].droppedBefore
  }

  lemma {:induction false} PayloadsConcat(a: seq<Event>, b: seq<Event>)
    ensures Payloads(a + b) == Payloads(a) + Payloads(b)
  {
    if b == [] {
      assert a + b == a;
    } else {
      assert (a + b)[..|a + b| - 1] == a + b[..|b| - 1];
      PayloadsConcat(a, b[..|b| - 1]);
    }
  }

  lemma {:induction false} PayloadsAt(es: seq<Event>)
    ensures |Payloads(es)| == |es|
    ensures forall i | 0 <= i < |es| :: Payloads(es)[i] == Payload(es[i])
  {
    if es != [] {
      PayloadsAt(es[..|es| - 1]);
    }
  }

  lemma {:induction false} DropSumConcat(a: seq<Event>, b: seq<Event>)
    ensures DropSum(a + b) == DropSum(a) + DropSum(b)
  {
    if b == [] {
      assert a + b == a;
    } else {
      assert (a + b)[..|a + b| - 1] == a + b[..|b| - 1];
      DropSumConcat(a, b[..|b| - 1]);
    }
  }

  /** Books the drops counted since the last flush on the head of the batch. */
  function Attribute(batch: seq<Event>, last: int, current: int): seq<Event>
    requires batch != []
  {
    if current > last
    then batch[0 := batch[0].(droppedBefore := batch[0].droppedBefore + (current - last))]
    else batch
  }

  function Booked(last: int, current: int): int {
    if current > last then current else last
  }

  /** Attribution adds exactly the new drops and touches nothing else. */
  lemma AttributeAdds(batch: seq<Event>, last: int, current: int)
    requires batch != []
    ensures Payloads(Attribute(batch, last, current)) == Payloads(batch)
    ensures DropSum(Attribute(batch, last, current)) == DropSum(batch) + Booked(last, current) - last
    ensures |Attribute(batch, last, current)| == |batch|
  {
    var r := Attribute(batch, last, current);
    assert batch == [batch[0]] + batch[1..] && r == [r[0]] + batch[1..];
    PayloadsConcat([batch[0]], batch[1..]);
    PayloadsConcat([r[0]], batch[1..]);
    assert Payloads([batch[0]]) == Payloads([r[0]]) == [Payload(batch[0])];
    DropSumConcat([batch[0]], batch[1..]);
    DropSumConcat([r[0]], batch[1..]);
    assert DropSum([batch[0]]) == batch[0].droppedBefore && DropSum([r[0]]) == r[0].droppedBefore;
  }
}
