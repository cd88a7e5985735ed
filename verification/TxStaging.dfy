/**
 The UART transmit path: a 1024-byte staging ring that the main thread fills and a
 DMA channel drains one contiguous span at a time.

 `Tx` is the ring seen as a queue; `TxRing` is the index arithmetic of the firmware,
 proved to refine it. The DMA engine moves one byte per step, at any point between
 two calls of the main thread.
 */
module TxStaging {
  import opened Bytes
  import Ring

  const SIZE: nat := 1024
  const CAPACITY: nat := SIZE - 1

  /** `ring` holds everything from tail to head, including the `sent` bytes of the span in
      flight (`inflight` bytes long) that the DMA has already moved but nobody retired. */
  datatype Tx = Tx(ring: Text, tail: nat, inflight: nat, sent: nat) {
    ghost predicate Valid() {
      && |ring| <= CAPACITY
      && tail < SIZE
      && sent <= inflight <= |ring|
      && tail + inflight <= SIZE
    }

    predicate Busy() { sent < inflight }

    /** What has been accepted but is not on the wire yet. */
    function Pending(): Text
      requires Valid()
    {
      ring[sent..]
    }
  }

  /** Index arithmetic of the firmware: masking an index below twice the ring size... */
  function Wrap(i: nat): (r: nat)
    requires i < 2 * SIZE
    ensures r < SIZE
  {
    Ring.Wrap(i, SIZE)
  }

  /** ...and the masked distance from tail to head. */
  function Distance(head: nat, tail: nat): (n: nat)
    requires head < SIZE && tail < SIZE
    ensures n < SIZE && head == Wrap(tail + n)
  {
    if head >= tail then head - tail else head - tail + SIZE
  }

  const EMPTY: Tx := Tx([], 0, 0, 0)

  function Min(a: nat, b: nat): nat { if a < b then a else b }

  function Retire(tx: Tx): Tx
    requires tx.Valid()
  {
    Tx(tx.ring[tx.inflight..], Wrap(tx.tail + tx.inflight), 0, 0)
  }

  function Pumped(tx: Tx): Tx
    requires tx.Valid()
  {
    if tx.Busy() then tx
    else
      var r := Retire(tx);
      r.(inflight := Min(|r.ring|, SIZE - r.tail))
  }

  datatype Event = Push(b: byte) | Pump | Dma | Clear

  /** A run since the last clear: what the main thread got accepted, what left on the wire. */
  datatype Log = Log(tx: Tx, accepted: Text, wire: Text)

  const START: Log := Log(EMPTY, [], [])

  function Step(l: Log, e: Event): (n: Log)
    requires l.tx.Valid()
    ensures n.tx.Valid()
  {
    match e
    case Push(b) =>
      if |l.tx.ring| == CAPACITY then l
      else l.(tx := l.tx.(ring := l.tx.ring + [b]), accepted := l.accepted + [b])
    case Pump => l.(tx := Pumped(l.tx))
    case Dma =>
      if !l.tx.Busy() then l
      else l.(tx := l.tx.(sent := l.tx.sent + 1), wire := l.wire + [l.tx.ring[l.tx.sent]])
    case Clear => START
  }

  function Run(l: Log, events: seq<Event>): (n: Log)
    requires l.tx.Valid()
    ensures n.tx.Valid()
    decreases events
  {
    if events == [] then l else Run(Step(l, events[0]), events[1..])
  }

  /** Nothing is lost, repeated or reordered: the wire plus what is pending is what was accepted. */
  ghost predicate Conserves(l: Log) {
    l.tx.Valid() && l.accepted == l.wire + l.tx.Pending()
  }

  lemma StepConserves(l: Log, e: Event)
    requires Conserves(l)
    ensures Conserves(Step(l, e))
  {
    match e
    case Push(b) => if |l.tx.ring| < CAPACITY { PushPends(l.tx.ring, l.tx.sent, b, l.wire); }
    case Dma => if l.tx.Busy() { MovePends(l.tx.ring, l.tx.sent, l.wire); }
    case Pump =>
    case Clear =>
  }

  lemma PushPends(ring: Text, sent: nat, b: byte, wire: Text)
    requires sent <= |ring|
    ensures wire + ring[sent..] + [b] == wire + (ring + [b])[sent..]
  {
    assert (ring + [b])[sent..] == ring[sent..] + [b];
  }

  lemma MovePends(ring: Text, sent: nat, wire: Text)
    requires sent < |ring|
    ensures wire + ring[sent..] == wire + [ring[sent]] + ring[sent + 1..]
  {
    assert ring[sent..] == [ring[sent]] + ring[sent + 1..];
  }

  /** For every interleaving of pushes, pumps, single-byte DMA steps and clears. */
  lemma {:induction false} RunConserves(l: Log, events: seq<Event>)
    requires Conserves(l)
    ensures Conserves(Run(l, events))
    decreases events
  {
    if events != [] {
      StepConserves(l, events[0]);
      RunConserves(Step(l, events[0]), events[1..]);
    }
  }

  /** The wire is always a prefix, in order, of the accepted bytes. */
  lemma WireIsPrefixOfAccepted(events: seq<Event>)
    ensures var l := Run(START, events);
            l.wire <= l.accepted && l.accepted[|l.wire|..] == l.tx.Pending()
  {
    RunConserves(START, events);
  }

  // ---- draining once the pushes stop ----

  ghost predicate OnlyDrains(events: seq<Event>) {
    forall i :: 0 <= i < |events| ==> events[i] == Pump || events[i] == Dma
  }

  /** Transfers still to be started once the current one is over. */
  function TransfersLeft(tx: Tx): (n: nat)
    requires tx.Valid()
    ensures n <= 2
  {
    var r := Retire(tx);
    if r.ring == [] then 0 else if |r.ring| <= SIZE - r.tail then 1 else 2
  }

  /** A pump that starts a DMA transfer. */
  predicate Starts(tx: Tx, e: Event)
    requires tx.Valid()
  {
    e.Pump? && !tx.Busy() && Pumped(tx).inflight > 0
  }

  function Started(l: Log, events: seq<Event>): nat
    requires l.tx.Valid()
    decreases events
  {
    if events == [] then 0
    else (if Starts(l.tx, events[0]) then 1 else 0) + Started(Step(l, events[0]), events[1..])
  }

  lemma StartUsesOneTransfer(l: Log, e: Event)
    requires l.tx.Valid() && (e.Pump? || e.Dma?)
    ensures TransfersLeft(l.tx) ==
            TransfersLeft(Step(l, e).tx) + if Starts(l.tx, e) then 1 else 0
  {
    if e.Pump? && !l.tx.Busy() {
      var r, p := Retire(l.tx), Pumped(l.tx);
      assert p.ring == r.ring && p.tail == r.tail;
      if |r.ring| > SIZE - r.tail {
        assert Wrap(p.tail + p.inflight) == 0;
        assert |p.ring[p.inflight..]| <= SIZE;
      }
    }
  }

  /** However pumps and DMA steps interleave, the bytes left over when the pushes stop go out
      in the current transfer plus at most two more, and when no pump has anything left to
      start and the DMA is idle, everything accepted is on the wire and the next pump empties
      the ring. */
  lemma {:induction false} DrainsInTwoMoreTransfers(l: Log, events: seq<Event>)
    requires Conserves(l) && OnlyDrains(events)
    ensures Started(l, events) + TransfersLeft(Run(l, events).tx) == TransfersLeft(l.tx) <= 2
    ensures Run(l, events).accepted == l.accepted
    ensures var f := Run(l, events);
            TransfersLeft(f.tx) == 0 && !f.tx.Busy() ==>
              f.wire == l.accepted && Pumped(f.tx).ring == []
    decreases events
  {
    if events == [] {
    } else {
      var n := Step(l, events[0]);
      StepConserves(l, events[0]);
      StartUsesOneTransfer(l, events[0]);
      DrainsInTwoMoreTransfers(n, events[1..]);
    }
  }

  /** Until the ring is drained some event makes progress: a busy DMA always moves a byte, and an
      idle one with transfers left is started by the next pump. */
  lemma DrainMakesProgress(l: Log)
    requires Conserves(l) && l.wire != l.accepted
    ensures l.tx.Busy() ==> |Step(l, Dma).wire| == |l.wire| + 1
    ensures !l.tx.Busy() ==> Starts(l.tx, Pump) && Step(l, Pump).tx.Busy()
  {
    if !l.tx.Busy() {
      assert Retire(l.tx).ring == l.tx.Pending();
      assert l.tx.Pending() != [];
    }
  }

  /** Two more transfers can really be needed: a span that wraps cannot go out in one. */
  lemma SecondTransferCanBeNeeded(b: byte)
    ensures var tx := Tx([b, b], SIZE - 1, 0, 0);
            tx.Valid() && TransfersLeft(tx) == 2 && Pumped(tx).inflight == 1
  {
  }

  // ---- the firmware's ring ----

  /** The ring variables hold what the staging model says. */
  ghost predicate Staged(cells: seq<byte>, head: nat, tail: nat, inflight: nat, readAt: nat, remaining: nat, l: Log) {
    && |cells| == SIZE && tail < SIZE && |l.tx.ring| < SIZE && head == Wrap(tail + |l.tx.ring|)
    && remaining <= inflight <= |l.tx.ring| && tail + inflight <= SIZE
    && (remaining > 0 ==> readAt == tail + inflight - remaining)
    && l.tx.tail == tail && l.tx.inflight == inflight && l.tx.sent == inflight - remaining
    && Ring.Holds(cells, tail, l.tx.ring)
    && Conserves(l)
  }

  lemma StagedPush(cells: seq<byte>, head: nat, tail: nat, inflight: nat, readAt: nat, remaining: nat, l: Log, b: byte)
    requires Staged(cells, head, tail, inflight, readAt, remaining, l)
    ensures head < SIZE && (Wrap(head + 1) == tail <==> |l.tx.ring| == CAPACITY)
    ensures |l.tx.ring| < CAPACITY ==>
              Staged(cells[head := b], Wrap(head + 1), tail, inflight, readAt, remaining, Step(l, Push(b)))
  {
    StepConserves(l, Push(b));
    if |l.tx.ring| < CAPACITY { Ring.Pushed(cells, tail, l.tx.ring, b); }
  }

  lemma StagedRetire(cells: seq<byte>, head: nat, tail: nat, inflight: nat, readAt: nat, l: Log)
    requires Staged(cells, head, tail, inflight, readAt, 0, l)
    ensures Staged(cells, head, Wrap(tail + inflight), 0, readAt, 0, l.(tx := Retire(l.tx)))
    ensures inflight == 0 ==> Wrap(tail + inflight) == tail
  {
    Ring.Dropped(cells, tail, l.tx.ring, inflight);
    assert l.tx.ring[inflight..][0..] == l.tx.Pending();
  }

  /** A span starts: as much as there is up to the end of the buffer. */
  lemma StagedSpan(cells: seq<byte>, head: nat, tail: nat, readAt: nat, l: Log)
    requires Staged(cells, head, tail, 0, readAt, 0, l)
    ensures var span := Min(|l.tx.ring|, SIZE - tail);
            Staged(cells, head, tail, span, tail, span, l.(tx := l.tx.(inflight := span)))
  {
  }

  lemma StagedMove(cells: seq<byte>, head: nat, tail: nat, inflight: nat, readAt: nat, remaining: nat, l: Log)
    requires Staged(cells, head, tail, inflight, readAt, remaining, l) && remaining > 0
    ensures readAt < SIZE && cells[readAt] == l.tx.ring[l.tx.sent]
    ensures Staged(cells, head, tail, inflight, readAt + 1, remaining - 1, Step(l, Dma))
  {
    StepConserves(l, Dma);
    assert readAt == Wrap(tail + l.tx.sent);
  }

  class TxRing {
    const cells: array<byte>       // uartToSend
    var head: nat                  // main thread writes
    var tail: nat                  // TX DMA reads
    var inflight: nat              // bytes handed to the DMA, not yet retired
    var claimed: bool              // a DMA channel has been set up
    var readAt: nat                // DMA read address, as an index
    var remaining: nat             // DMA transfer count; the channel is busy while it is positive
    var overflows: nat
    ghost var log: Log

    function Available(): (n: nat)
      requires head < SIZE && tail < SIZE
      reads this
      ensures n < SIZE && head == Wrap(tail + n)
    {
      Distance(head, tail)
    }

    ghost predicate Valid()
      reads this, cells
    {
      && cells.Length == SIZE && (!claimed ==> inflight == 0)
      && Staged(cells[..], head, tail, inflight, readAt, remaining, log)
    }

    constructor ()
      ensures Valid() && fresh(cells) && log == START && !claimed
    {
      cells := new byte[SIZE];
      head, tail, inflight := 0, 0, 0;
      claimed := false;
      readAt, remaining, overflows := 0, 0, 0;
      log := START;
    }

    /** setupTxDma: claim the channel if need be and start from an empty ring. */
    method Setup()
      requires Valid()
      modifies this
      ensures Valid() && claimed && log == START
    {
      claimed := true;
      inflight, head, tail, remaining := 0, 0, 0, 0;
      log := START;
    }

    /** tx_ring_push_byte. */
    method PushByte(b: byte) returns (ok: bool)
      requires Valid()
      modifies this, cells
      ensures Valid() && claimed == old(claimed)
      ensures ok <==> |old(log).tx.ring| < CAPACITY
      ensures log == Step(old(log), Push(b))
      ensures overflows == old(overflows) + if ok then 0 else 1
    {
      StagedPush(cells[..], head, tail, inflight, readAt, remaining, log, b);
      var next := Wrap(head + 1);
      if next == tail {
        overflows := overflows + 1;
        return false;
      }
      ghost var was := cells[..];
      log := Step(log, Push(b));
      cells[head] := b;
      assert cells[..] == was[head := b];
      head := next;
      return true;
    }

    /** The finished transfer's bytes leave the ring. */
    method RetireSpan()
      requires Valid() && remaining == 0
      modifies this`tail, this`inflight, this`log
      ensures Valid() && inflight == 0
      ensures log == old(log).(tx := Retire(old(log).tx))
    {
      StagedRetire(cells[..], head, tail, inflight, readAt, log);
      log := log.(tx := Retire(log.tx));
      if inflight != 0 {
        tail := Wrap(tail + inflight);
        inflight := 0;
      }
    }

    /** tx_dma_pump: retire a finished span and start the next contiguous one. */
    method PumpDma()
      requires Valid()
      modifies this
      ensures Valid() && claimed == old(claimed) && overflows == old(overflows)
      ensures log == if claimed then Step(old(log), Pump) else old(log)
    {
      if !claimed || remaining > 0 { return; }
      RetireSpan();
      StartSpan();
    }

    /** Everything up to the end of the buffer goes to the DMA; nothing does when there is nothing. */
    method StartSpan()
      requires Valid() && claimed && remaining == 0 == inflight
      modifies this`inflight, this`readAt, this`remaining, this`log
      ensures Valid()
      ensures log == old(log).(tx := old(log).tx.(inflight := Min(|old(log).tx.ring|, SIZE - old(log).tx.tail)))
    {
      StagedSpan(cells[..], head, tail, readAt, log);
      var avail := Available();
      if avail == 0 { return; }
      var toEnd := SIZE - tail;
      var span := if avail < toEnd then avail else toEnd;
      inflight := span;
      readAt := tail;
      remaining := span;
      log := log.(tx := log.tx.(inflight := span));
    }

    /** The DMA engine moves one byte to the UART. The byte it reads now, from memory, is the
        one that was staged: the main thread has not overwritten it in the meantime. */
    method MoveByte() returns (b: byte)
      requires Valid() && remaining > 0
      modifies this
      ensures Valid() && claimed == old(claimed)
      ensures b == old(log).tx.ring[old(log).tx.sent]
      ensures old(readAt) < SIZE && log == Step(old(log), Dma)
    {
      StagedMove(cells[..], head, tail, inflight, readAt, remaining, log);
      b := cells[readAt];
      log := Step(log, Dma);
      readAt := readAt + 1;
      remaining := remaining - 1;
    }

    /** tx_ring_clear: abort the transfer and forget everything staged. */
    method ClearRing()
      requires Valid()
      modifies this
      ensures Valid() && claimed == old(claimed) && log == START
    {
      remaining := 0;
      inflight, head, tail := 0, 0, 0;
      log := START;
    }
  }
}
