/** The kernel's drop counter and the deltas the event source attaches.

    The ring buffer's drop counter is a per-CPU uint64; the source attaches to each
    event the difference to the previous reading, converted to int64. */
module KernelDrops {
  const TWO_63: int := 0x8000_0000_0000_0000
  const TWO_64: int := 0x1_0000_0000_0000_0000

  type uint64 = n: int | 0 <= n < TWO_64

  function Add64(a: uint64, b: uint64): uint64 { (a + b) % TWO_64 }

  function Sub64(a: uint64, b: uint64): uint64 { (a - b) % TWO_64 }

  /** int64(x) for a uint64 x. */
  function ToInt64(x: uint64): int { if x < TWO_63 then x else x - TWO_64 }

  /** The delta is the true difference exactly when the readings are less than
      2^63 apart (downwards, 2^63 apart at most). */
  lemma DeltaExact(now: uint64, last: uint64)
    ensures ToInt64(Sub64(now, last)) == now - last <==> -TWO_63 <= now - last < TWO_63
  {
    if now < last {
      assert (now - last) % TWO_64 == now - last + TWO_64;
    } else {
      assert (now - last) % TWO_64 == now - last;
    }
  }

  function Total(perCPU: seq<uint64>): int {
    if perCPU == [] then 0 else Total(perCPU[..|perCPU| - 1]) + perCPU[|perCPU| - 1]
  }

  /** One look at the drop map: absent or failed lookups are None. */
  datatype Lookup = Failed | Counters(perCPU: seq<uint64>)

  function Reading(l: Lookup): uint64 {
    match l case Failed => 0 case Counters(p) => Total(p) % TWO_64
  }

  /** The sum over the CPUs, wrapping as uint64 does. */
  method ReadRingbufDrops(l: Lookup) returns (total: uint64)
    ensures total == Reading(l)
    ensures l == Failed ==> total == 0
    ensures l.Counters? ==> total == Total(l.perCPU) % 0x1_0000_0000_0000_0000
  {
    match l {
      case Failed => return 0;
      case Counters(perCPU) =>
        total := 0;
        for i := 0 to |perCPU|
          invariant total == Total(perCPU[..i]) % TWO_64
        {
          assert perCPU[..i + 1][..i] == perCPU[..i];
          WrapAdd(Total(perCPU[..i]), perCPU[i]);
          total := Add64(total, perCPU[i]);
        }
        assert perCPU[..|perCPU|] == perCPU;
    }
  }

  lemma WrapAdd(a: int, b: int)
    ensures (a % TWO_64 + b) % TWO_64 == (a + b) % TWO_64
  {
    var q := a / TWO_64;
    assert a == q * TWO_64 + a % TWO_64;
    var r := (a % TWO_64 + b) % TWO_64;
    var k := (a % TWO_64 + b) / TWO_64;
    assert a + b == (q + k) * TWO_64 + r;
  }

  /** What the read loop meets: a record that does not decode, or an event with the
      state of the drop map when it is converted and whether it could be sent; the
      alternative to sending is that the context was cancelled. */
  datatype Record = Malformed | Decoded(drops: Lookup, sent: bool)

  predicate Attached(r: Record) { r.Decoded? && r.sent }

  /** The last reading attached to a sent event among the first i records. */
  function LastReading(records: seq<Record>, i: nat): uint64
    requires i <= |records|
  {
    if i == 0 then 0
    else if Attached(records[i - 1]) then Reading(records[i - 1].drops)
    else LastReading(records, i - 1)
  }

  function Sum(deltas: seq<int>): int {
    if deltas == [] then 0 else Sum(deltas[..|deltas| - 1]) + deltas[|deltas| - 1]
  }

  ghost predicate ReadingsBelow(records: seq<Record>, i: nat, limit: int)
    requires i <= |records|
  {
    forall k | 0 <= k < i && Attached(records[k]) :: Reading(records[k].drops) < limit
  }

  /** a and b are equal as uint64 values. */
  predicate Congruent(a: int, b: int) { a % TWO_64 == b % TWO_64 }

  lemma DeltaCongruent(sum: int, last: uint64, now: uint64)
    requires Congruent(sum, last)
    ensures Congruent(sum + ToInt64(Sub64(now, last)), now)
  {
    var d := Sub64(now, last);
    WrapAdd(sum, ToInt64(d));
    WrapAdd(last, ToInt64(d));
    if now < last {
      assert d == now - last + TWO_64;
    } else {
      assert d == now - last;
    }
    assert last + ToInt64(d) == now || last + ToInt64(d) == now + TWO_64 || last + ToInt64(d) == now - TWO_64;
  }

  function Delta(now: uint64, last: uint64): int { ToInt64(Sub64(now, last)) }

  /** The running sum is right so far: modulo 2^64, and exactly if readings are small. */
  ghost predicate Telescoped(records: seq<Record>, i: nat, deltas: seq<int>)
    requires i <= |records|
  {
    && Congruent(Sum(deltas), LastReading(records, i))
    && (ReadingsBelow(records, i, TWO_63) ==> Sum(deltas) == LastReading(records, i) < TWO_63)
  }

  /** The deltas on the events sent for the first i records. */
  function Deltas(records: seq<Record>, i: nat): seq<int>
    requires i <= |records|
  {
    if i == 0 then [] else
      var before, r := Deltas(records, i - 1), records[i - 1];
      if Attached(r) then before + [Delta(Reading(r.drops), LastReading(records, i - 1))] else before
  }

  function MalformedCount(records: seq<Record>, i: nat): nat
    requires i <= |records|
  {
    if i == 0 then 0 else MalformedCount(records, i - 1) + if records[i - 1].Malformed? then 1 else 0
  }

  lemma TelescopeStep(records: seq<Record>, i: nat, deltas: seq<int>)
    requires i < |records| && Attached(records[i]) && Telescoped(records, i, deltas)
    ensures Telescoped(records, i + 1, deltas + [Delta(Reading(records[i].drops), LastReading(records, i))])
  {
    var last, now := LastReading(records, i), Reading(records[i].drops);
    DeltaCongruent(Sum(deltas), last, now);
    assert (deltas + [Delta(now, last)])[..|deltas|] == deltas;
    if ReadingsBelow(records, i + 1, TWO_63) {
      assert ReadingsBelow(records, i, TWO_63);
      DeltaExact(now, last);
    }
  }

  lemma UnattachedStep(records: seq<Record>, i: nat, deltas: seq<int>)
    requires i < |records| && !Attached(records[i]) && Telescoped(records, i, deltas)
    ensures Telescoped(records, i + 1, deltas)
  {
    assert LastReading(records, i + 1) == LastReading(records, i);
    assert ReadingsBelow(records, i + 1, TWO_63) ==> ReadingsBelow(records, i, TWO_63);
  }

  /** Whatever happens in between - counters that wrap or restart, lookups that
      fail, records that do not decode - the deltas on the events sent add up to
      the last reading attached to one, modulo 2^64; and exactly, when every
      reading is below 2^63. */
  lemma {:induction false} DeltasTelescope(records: seq<Record>, i: nat)
    requires i <= |records|
    ensures Telescoped(records, i, Deltas(records, i))
  {
    if i > 0 {
      DeltasTelescope(records, i - 1);
      var before := Deltas(records, i - 1);
      if Attached(records[i - 1]) {
        TelescopeStep(records, i - 1, before);
      } else {
        UnattachedStep(records, i - 1, before);
      }
    }
  }

  /** The read loop, until it runs out of records or a send loses to cancellation. */
  method Run(records: seq<Record>) returns (deltas: seq<int>, decodeErrors: nat, pos: nat)
    ensures pos <= |records|
    ensures pos < |records| ==> 0 < pos && records[pos - 1].Decoded? && !records[pos - 1].sent
    ensures deltas == Deltas(records, pos) && decodeErrors == MalformedCount(records, pos)
    ensures Telescoped(records, pos, deltas)
  {
    var lastKernelDropped: uint64 := 0;
    deltas, decodeErrors, pos := [], 0, 0;
    while pos < |records|
      invariant pos <= |records|
      invariant lastKernelDropped == LastReading(records, pos)
      invariant deltas == Deltas(records, pos) && decodeErrors == MalformedCount(records, pos)
    {
      var r := records[pos];
      pos := pos + 1;
      match r {
        case Malformed =>
          decodeErrors := decodeErrors + 1;
        case Decoded(drops, sent) =>
          var kernelDropped := ReadRingbufDrops(drops);
          var dropped := Sub64(kernelDropped, lastKernelDropped);
          lastKernelDropped := kernelDropped;
          if !sent {
            DeltasTelescope(records, pos);
            return;
          }
          deltas := deltas + [ToInt64(dropped)];
      }
    }
    DeltasTelescope(records, pos);
  }
}
