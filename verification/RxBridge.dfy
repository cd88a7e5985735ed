/**
 The UART receive path: a DMA channel writes a ring for ever, the main thread follows it and
 passes the bytes on to the host through the USB FIFO, at most 256 a call and never into a
 full FIFO, while the tag parser looks on.

 `Flow` records which captured bytes were passed on, by their position in the DMA stream;
 `RxRing` is the ring with its snapshot of the write pointer; `Bridge` is the draining loop,
 with the DMA and the host free to act at each of its queries.
 */
module RxBridge {
  import opened Bytes
  import Ring
  import Tags = TagParser
  import Trip = TagRoundTrip

  const BURST: nat := 256

  // ---- the stream and what became of it ----

  datatype Flow = Flow(captured: Text, consumed: nat, positions: seq<nat>) {
    ghost predicate Valid() {
      && consumed <= |captured|
      && (forall i :: 0 <= i < |positions| ==> positions[i] < consumed)
      && (forall i, j :: 0 <= i < j < |positions| ==> positions[i] < positions[j])
    }

    /** The bytes passed on to the host. */
    function Written(): Text
      requires Valid()
    {
      seq(|positions|, i requires 0 <= i < |positions| => captured[positions[i]])
    }

    function Pending(): Text
      requires Valid()
    {
      captured[consumed..]
    }
  }

  const NOTHING: Flow := Flow([], 0, [])

  datatype Event = Capture(b: byte) | Forward | Discard(upTo: nat)

  function Step(f: Flow, e: Event): Flow {
    match e
    case Capture(b) => f.(captured := f.captured + [b])
    case Forward =>
      if f.consumed < |f.captured|
      then f.(consumed := f.consumed + 1, positions := f.positions + [f.consumed]) else f
    case Discard(n) =>
      if f.consumed <= n <= |f.captured| then f.(consumed := n) else f
  }

  function Run(f: Flow, events: seq<Event>): Flow
    decreases events
  {
    if events == [] then f else Run(Step(f, events[0]), events[1..])
  }

  function Range(from: nat, to: nat): (r: seq<nat>)
    requires from <= to
    ensures |r| == to - from
  {
    seq(to - from, i requires 0 <= i < to - from => from + i)
  }

  /** From `f` to `g` bytes were captured, and some passed on, but none discarded. */
  ghost predicate Delivers(f: Flow, g: Flow) {
    && f.captured <= g.captured && f.consumed <= g.consumed
    && g.positions == f.positions + Range(f.consumed, g.consumed)
  }

  lemma StepIsOrdered(f: Flow, e: Event)
    requires f.Valid()
    ensures Step(f, e).Valid()
    ensures !e.Discard? ==> Delivers(f, Step(f, e))
  {
  }

  lemma StepForward(f: Flow)
    requires f.Valid()
    ensures Step(f, Forward).Valid() && Step(f, Forward).captured == f.captured
    ensures f.consumed < |f.captured| ==> Step(f, Forward).consumed == f.consumed + 1
  {
  }

  lemma DeliversTwice(f: Flow, g: Flow, h: Flow)
    requires Delivers(f, g) && Delivers(g, h)
    ensures Delivers(f, h)
  {
    assert Range(f.consumed, g.consumed) + Range(g.consumed, h.consumed) == Range(f.consumed, h.consumed);
  }

  /** Whatever is captured, passed on and discarded, no byte is passed on twice or out of order. */
  lemma {:induction false} NeverRepeatsOrReorders(f: Flow, events: seq<Event>)
    requires f.Valid()
    ensures Run(f, events).Valid()
    decreases events
  {
    if events != [] {
      StepIsOrdered(f, events[0]);
      NeverRepeatsOrReorders(Step(f, events[0]), events[1..]);
    }
  }

  lemma {:induction false} RunDelivers(f: Flow, events: seq<Event>)
    requires f.Valid() && forall i :: 0 <= i < |events| ==> !events[i].Discard?
    ensures Run(f, events).Valid() && Delivers(f, Run(f, events))
    decreases events
  {
    if events != [] {
      var n := Step(f, events[0]);
      StepIsOrdered(f, events[0]);
      RunDelivers(n, events[1..]);
      DeliversTwice(f, n, Run(n, events[1..]));
    }
  }

  /** Captures, and then one byte passed on. */
  lemma DeliversOne(f: Flow, g: Flow, h: Flow)
    requires f.Valid() && g.positions == f.positions && g.consumed == f.consumed && f.captured <= g.captured
    requires g.consumed < |g.captured| && h == Step(g, Forward)
    ensures Delivers(f, h)
  {
    assert Range(f.consumed, h.consumed) == [f.consumed];
  }

  lemma DeliveredText(f: Flow, g: Flow)
    requires f.Valid() && g.Valid() && Delivers(f, g)
    ensures g.Written() == f.Written() + g.captured[f.consumed..g.consumed]
  {
  }

  /** While nothing is discarded the host gets exactly the DMA stream from where it stood, in
      order, nothing lost or repeated, whatever the schedule. */
  lemma HostGetsTheStream(f: Flow, events: seq<Event>)
    requires f.Valid() && forall i :: 0 <= i < |events| ==> !events[i].Discard?
    ensures var g := Run(f, events);
            && g.Valid() && f.consumed <= g.consumed
            && g.Written() == f.Written() + g.captured[f.consumed..g.consumed]
            && g.captured[f.consumed..] == g.captured[f.consumed..g.consumed] + g.Pending()
  {
    RunDelivers(f, events);
    DeliveredText(f, Run(f, events));
  }

  // ---- the receive ring ----

  /** The ring follows the stream: it holds what is captured and not consumed, and the snapshot
      stands at `seen`. */
  ghost predicate Tracks(cells: seq<byte>, head: nat, tail: nat, writeAt: nat, seen: nat, captured: Text, consumed: nat) {
    && consumed <= seen <= |captured| && |captured| - consumed < |cells|
    && Ring.Holds(cells, tail, captured[consumed..])
    && writeAt == Ring.Wrap(tail + (|captured| - consumed), |cells|)
    && head == Ring.Wrap(tail + (seen - consumed), |cells|)
  }

  lemma TracksCapture(cells: seq<byte>, head: nat, tail: nat, writeAt: nat, seen: nat, captured: Text, consumed: nat, b: byte)
    requires Tracks(cells, head, tail, writeAt, seen, captured, consumed) && |captured| - consumed < |cells| - 1
    ensures Tracks(cells[writeAt := b], head, tail, Ring.Wrap(writeAt + 1, |cells|), seen, captured + [b], consumed)
  {
    Ring.Pushed(cells, tail, captured[consumed..], b);
    assert (captured + [b])[consumed..] == captured[consumed..] + [b];
  }

  lemma TracksPop(cells: seq<byte>, head: nat, tail: nat, writeAt: nat, seen: nat, captured: Text, consumed: nat)
    requires Tracks(cells, head, tail, writeAt, seen, captured, consumed)
    ensures tail == head <==> consumed == seen
    ensures consumed < seen ==>
              && cells[tail] == captured[consumed]
              && Tracks(cells, head, Ring.Wrap(tail + 1, |cells|), writeAt, seen, captured, consumed + 1)
  {
    if consumed < seen {
      Ring.Front(cells, tail, captured[consumed..], cells[tail]);
      Ring.Dropped(cells, tail, captured[consumed..], 1);
      assert captured[consumed..][1..] == captured[consumed + 1..];
    }
  }

  lemma TracksDrop(cells: seq<byte>, head: nat, tail: nat, writeAt: nat, seen: nat, captured: Text, consumed: nat)
    requires Tracks(cells, head, tail, writeAt, seen, captured, consumed)
    ensures Tracks(cells, head, head, writeAt, seen, captured, seen)
  {
    Ring.Dropped(cells, tail, captured[consumed..], seen - consumed);
    assert captured[consumed..][seen - consumed..] == captured[seen..];
  }

  class RxRing {
    const size: nat
    const cells: array<byte>       // uartReceived
    var head: nat                  // snapshot of the DMA write pointer
    var tail: nat                  // consume index
    var writeAt: nat               // where the DMA writes next
    ghost var flow: Flow
    ghost var seen: nat            // how much of the stream the snapshot covers
    ghost var overrun: bool        // the DMA got a full ring ahead of the consumer

    function Wrap(i: nat): (r: nat)
      requires size > 0 && i < 2 * size
      ensures r < size
    {
      Ring.Wrap(i, size)
    }

    ghost predicate Valid()
      reads this, cells
    {
      && size > 1 && cells.Length == size
      && head < size && tail < size && writeAt < size
      && flow.Valid()
      && (!overrun ==> Tracks(cells[..], head, tail, writeAt, seen, flow.captured, flow.consumed))
    }

    constructor (size: nat)
      requires size > 1
      ensures Valid() && fresh(cells) && flow == NOTHING && !overrun && seen == 0
    {
      this.size := size;
      cells := new byte[size];
      head, tail, writeAt := 0, 0, 0;
      flow, seen, overrun := NOTHING, 0, false;
    }

    /** The DMA writes one byte. */
    method CaptureByte(b: byte)
      requires Valid()
      modifies this, cells
      ensures Valid() && flow == Step(old(flow), Capture(b)) && seen == old(seen)
      ensures overrun == (old(overrun) || |old(flow).Pending()| == size - 1)
    {
      overrun := overrun || |flow.Pending()| >= size - 1;
      if !overrun { TracksCapture(cells[..], head, tail, writeAt, seen, flow.captured, flow.consumed, b); }
      ghost var was := cells[..];
      cells[writeAt] := b;
      assert cells[..] == was[writeAt := b];
      writeAt := Wrap(writeAt + 1);
      StepIsOrdered(flow, Capture(b));
      flow := Step(flow, Capture(b));
    }

    /** rx_dma_sync_head. */
    method SyncHead()
      requires Valid()
      modifies this`head, this`seen
      ensures Valid() && seen == |flow.captured|
    {
      head := writeAt;
      seen := |flow.captured|;
    }

    /** ring_available. */
    method Available() returns (n: nat)
      requires Valid()
      modifies this`head, this`seen
      ensures Valid() && seen == |flow.captured|
      ensures !overrun ==> n == |flow.Pending()|
    {
      SyncHead();
      n := if head >= tail then head - tail else head - tail + size;
    }

    /** ring_pop_byte. */
    method PopByte() returns (ok: bool, b: byte)
      requires Valid()
      modifies this`tail, this`flow
      ensures Valid()
      ensures !overrun ==> ok == (old(flow).consumed < seen)
      ensures !overrun && ok ==> b == flow.captured[old(flow).consumed]
      ensures !overrun ==> flow == if ok then Step(old(flow), Forward) else old(flow)
      ensures flow.captured == old(flow).captured
    {
      if !overrun { TracksPop(cells[..], head, tail, writeAt, seen, flow.captured, flow.consumed); }
      if tail == head { return false, 0; }
      ok, b := true, cells[tail];
      tail := Wrap(tail + 1);
      StepForward(flow);
      if !overrun { flow := Step(flow, Forward); }
    }

    /** Snap the consume index to the snapshot: everything it covers is discarded. */
    method DropToHead()
      requires Valid()
      modifies this`tail, this`flow
      ensures Valid() && flow.captured == old(flow).captured && flow.positions == old(flow).positions
      ensures !overrun ==> flow == Step(old(flow), Discard(seen)) && flow.consumed == seen
    {
      if !overrun { TracksDrop(cells[..], head, tail, writeAt, seen, flow.captured, flow.consumed); }
      tail := head;
      StepIsOrdered(flow, Discard(seen));
      if !overrun { flow := Step(flow, Discard(seen)); }
    }

    /** ring_clear. */
    method Clear()
      requires Valid()
      modifies this`head, this`seen, this`tail, this`flow
      ensures Valid() && flow.captured == old(flow).captured && flow.positions == old(flow).positions
      ensures !overrun ==> flow.Pending() == []
    {
      SyncHead();
      DropToHead();
    }
  }

  // ---- the USB FIFO towards the host ----

  /** TinyUSB's transmit FIFO of one CDC interface: only the bridge writes it, only the host
      takes bytes out. */
  class CdcFifo {
    const capacity: nat
    var queue: Text
    ghost var written: Text
    ghost var received: Text

    ghost predicate Valid()
      reads this
    {
      |queue| <= capacity && written == received + queue
    }

    constructor (capacity: nat)
      ensures Valid() && queue == [] && written == [] && this.capacity == capacity
    {
      this.capacity := capacity;
      queue, written, received := [], [], [];
    }

    function Room(): nat
      requires Valid()
      reads this
    {
      capacity - |queue|
    }

    method WriteByte(b: byte)
      requires Valid() && Room() > 0
      modifies this`queue, this`written
      ensures Valid() && written == old(written) + [b]
    {
      queue := queue + [b];
      written := written + [b];
    }

    /** The host reads up to `n` bytes. */
    method HostTakes(n: nat)
      requires Valid()
      modifies this`queue, this`received
      ensures Valid() && written == old(written) && received <= written && Room() >= old(Room())
    {
      var k := if n <= |queue| then n else |queue|;
      received := received + queue[..k];
      queue := queue[k..];
    }
  }

  // ---- the bridge ----

  /** What happens around one byte of the loop: bytes the DMA captures and the host takes before
      the loop looks at the ring and, again, between its look at the FIFO and its write; and
      what the tag parser is told. */
  datatype Turn = Turn(arrives: Text, takes: nat, arrivesLate: Text, takesLate: nat,
                       tagParsing: bool, env: Tags.Env)

  datatype Stop = RingEmpty | FifoFull | BurstDone

  /** What the tag parser is told of the bytes that went on: those that came while it was enabled. */
  function Told(bytes: Text, turns: seq<Turn>): Trip.Stream
    requires |bytes| <= |turns|
  {
    if bytes == [] then []
    else
      var k := |bytes| - 1;
      Told(bytes[..k], turns) + if turns[k].tagParsing then [Trip.Byte(bytes[k] as char, turns[k].env)] else []
  }

  /** The parser has heard a stream, and its commands have been dispatched. */
  ghost predicate Hears(p: Tags.Parser, t: Trip.Stream, q: Tags.Parser, commands: seq<Tags.Command>) {
    var f := Trip.Feed(Trip.Tags(), p, t); f.parser == q && f.commands == commands
  }

  lemma HearsNothing(p: Tags.Parser)
    ensures Hears(p, [], p, [])
  {
  }

  lemma HearsOneMore(p: Tags.Parser, t: Trip.Stream, q: Tags.Parser, commands: seq<Tags.Command>, b: Trip.Byte)
    requires Hears(p, t, q, commands)
    ensures var f := Trip.FeedOne(q, b); Hears(p, t + [b], f.parser, commands + f.commands)
  {
    Trip.FeedAppend(Trip.Tags(), p, t, [b]);
    Trip.FeedChar(Trip.Tags(), q, b);
  }

  /** A list of texts, tags and commands on its way to the host is dispatched as by the parser alone,
      wherever the calls cut it. */
  lemma BridgeDispatches(items: seq<Trip.Item>, t: Trip.Stream, q: Tags.Parser, commands: seq<Tags.Command>)
    requires Hears(Tags.RESET, t, q, commands)
    requires Trip.AllPlain(items) && Trip.Chars(Trip.Heard(t)) == Trip.Print(items)
    ensures |Trip.Heard(t)| == |Trip.Print(items)| && commands == Trip.Commands(items, Trip.NOTHING_LEFT, Trip.Heard(t))
  {
    Trip.RoundTripAroundFlashing(items, t);
  }

  lemma HearsMore(p: Tags.Parser, s: Trip.Stream, q: Tags.Parser, a: seq<Tags.Command>,
                  t: Trip.Stream, r: Tags.Parser, b: seq<Tags.Command>)
    requires Hears(p, s, q, a) && Hears(q, t, r, b)
    ensures Hears(p, s + t, r, a + b)
  {
    Trip.FeedAppend(Trip.Tags(), p, s, t);
  }

  /** The parser after a turn. */
  function Turned(p: Tags.Parser, c: byte, t: Turn): Trip.Fed {
    if t.tagParsing then Trip.FeedOne(p, Trip.Byte(c as char, t.env)) else Trip.Fed(p, "", [])
  }

  lemma HearsTurn(p: Tags.Parser, bytes: Text, turns: seq<Turn>, q: Tags.Parser, commands: seq<Tags.Command>, c: byte)
    requires |bytes| < |turns| && Hears(p, Told(bytes, turns), q, commands)
    ensures var f := Turned(q, c, turns[|bytes|]);
            Hears(p, Told(bytes + [c], turns), f.parser, commands + f.commands)
  {
    var more := bytes + [c];
    assert more[..|more| - 1] == bytes;
    if turns[|bytes|].tagParsing {
      HearsOneMore(p, Told(bytes, turns), q, commands, Trip.Byte(c as char, turns[|bytes|].env));
    } else {
      assert Told(more, turns) == Told(bytes, turns) && commands + [] == commands;
    }
  }

  lemma CaptureKeepsWritten(f: Flow, b: byte)
    requires f.Valid()
    ensures Step(f, Capture(b)).Valid() && Step(f, Capture(b)).Written() == f.Written()
  {
  }

  lemma ForwardWrites(f: Flow)
    requires f.Valid() && f.consumed < |f.captured|
    ensures var g := Step(f, Forward); g.Valid() && g.Written() == f.Written() + [f.captured[f.consumed]]
  {
  }

  class Bridge {
    const ring: RxRing
    const cdc: CdcFifo
    const parser: Tags.TagParserState
    /** What the tag parser has dispatched. */
    ghost var commands: seq<Tags.Command>

    ghost predicate Valid()
      reads ring, ring.cells, cdc, parser
    {
      && ring.Valid() && cdc.Valid() && parser.Valid()
      && (!ring.overrun ==> cdc.written == ring.flow.Written())
    }

    constructor (ring: RxRing, cdc: CdcFifo, parser: Tags.TagParserState)
      requires ring.Valid() && cdc.Valid() && parser.Valid()
      requires cdc.written == ring.flow.Written()
      ensures Valid() && this.ring == ring && this.cdc == cdc && this.parser == parser && commands == []
    {
      this.ring, this.cdc, this.parser := ring, cdc, parser;
      commands := [];
    }

    /** The DMA and the host, between two steps of the main thread. */
    method Surroundings(arrives: Text, takes: nat)
      requires Valid()
      modifies ring, ring.cells, cdc
      ensures Valid() && cdc.Room() >= old(cdc.Room()) && ring.seen == old(ring.seen)
      ensures cdc.written == old(cdc.written)
      ensures ring.flow.positions == old(ring.flow.positions)
      ensures ring.flow.consumed == old(ring.flow.consumed)
      ensures ring.flow.captured == old(ring.flow.captured) + arrives
      ensures old(ring.overrun) ==> ring.overrun
    {
      for i := 0 to |arrives|
        invariant Valid() && cdc.Room() == old(cdc.Room()) && ring.seen == old(ring.seen)
        invariant cdc.written == old(cdc.written)
        invariant ring.flow.positions == old(ring.flow.positions)
        invariant ring.flow.consumed == old(ring.flow.consumed)
        invariant ring.flow.captured == old(ring.flow.captured) + arrives[..i]
        invariant old(ring.overrun) ==> ring.overrun
      {
        ghost var f := ring.flow;
        ring.CaptureByte(arrives[i]);
        CaptureKeepsWritten(f, arrives[i]);
        assert arrives[..i + 1] == arrives[..i] + [arrives[i]];
      }
      assert arrives[..|arrives|] == arrives;
      cdc.HostTakes(takes);
    }

    /** Pass one byte on: the host gets it whatever the parser makes of it, and the parser, if it is
        enabled, hears the same byte. */
    method PassByte(connected: bool, t: Turn) returns (ok: bool, c: byte)
      requires Valid() && connected && cdc.Room() > 0
      requires !ring.overrun ==> ring.seen > ring.flow.consumed
      modifies this`commands, ring, ring.cells, cdc, parser, parser.tagBuffer, parser.commandBuffer
      ensures Valid() && (old(ring.overrun) ==> ring.overrun)
      ensures !ring.overrun ==> ok && Delivers(old(ring.flow), ring.flow)
                                && ring.flow.consumed == old(ring.flow.consumed) + 1
      ensures cdc.written == old(cdc.written) + if ok then [c] else []
      ensures if ok then
                var f := Turned(old(parser.View()), c, t);
                parser.View() == f.parser && commands == old(commands) + f.commands
              else parser.View() == old(parser.View()) && commands == old(commands)
    {
      ghost var f := ring.flow;
      Surroundings(t.arrivesLate, t.takesLate);
      ghost var g := ring.flow;
      ok, c := Forward(connected);
      if ok { ProcessTags(c, t); }
      if !ring.overrun { DeliversOne(f, g, ring.flow); }
    }

    /** The tag parser looks on, if it is enabled. */
    method ProcessTags(c: byte, t: Turn)
      requires Valid()
      modifies this`commands, parser, parser.tagBuffer, parser.commandBuffer
      ensures Valid()
      ensures var f := Turned(old(parser.View()), c, t);
              parser.View() == f.parser && commands == old(commands) + f.commands
    {
      if t.tagParsing {
        var _, dispatched := parser.ProcessByte(c as char, t.env);
        commands := commands + Trip.Dispatches(dispatched);
      }
    }

    /** The byte leaves the ring and joins the FIFO. */
    method Forward(connected: bool) returns (ok: bool, c: byte)
      requires Valid() && connected && cdc.Room() > 0
      modifies ring, cdc
      ensures Valid() && ring.overrun == old(ring.overrun) && ring.flow.captured == old(ring.flow.captured)
      ensures !ring.overrun ==>
                && ok == (old(ring.flow.consumed) < old(ring.seen))
                && ring.flow == if ok then Step(old(ring.flow), Event.Forward) else old(ring.flow)
      ensures cdc.written == old(cdc.written) + if ok then [c] else []
    {
      ghost var g := ring.flow;
      ok, c := ring.PopByte();
      if !ok { return; }
      if connected && cdc.Room() > 0 { cdc.WriteByte(c); }
      if !ring.overrun { ForwardWrites(g); }
    }

    /** One round of the loop: a byte is passed on, or the loop stops. */
    method Round(last: bool, t: Turn) returns (passed: bool, stop: Stop, c: byte)
      requires Valid()
      modifies this`commands, ring, ring.cells, cdc, parser, parser.tagBuffer, parser.commandBuffer
      ensures Valid() && (old(ring.overrun) ==> ring.overrun)
      ensures !ring.overrun ==>
                && Delivers(old(ring.flow), ring.flow)
                && ring.flow.consumed == old(ring.flow.consumed) + (if passed then 1 else 0)
                && (!passed && stop == RingEmpty ==> ring.flow.Pending() == [])
      ensures !passed && stop == FifoFull ==> cdc.Room() == 0
      ensures stop == BurstDone ==> last && !passed
      ensures passed ==> !last
      ensures cdc.written == old(cdc.written) + if passed then [c] else []
      ensures if passed then
                var f := Turned(old(parser.View()), c, t);
                parser.View() == f.parser && commands == old(commands) + f.commands
              else parser.View() == old(parser.View()) && commands == old(commands)
    {
      passed, stop, c := false, RingEmpty, 0;
      ghost var f := ring.flow;
      Surroundings(t.arrives, t.takes);
      var avail := ring.Available();
      if avail == 0 { return; }
      if last { stop := BurstDone; return; }
      if cdc.Room() == 0 { stop := FifoFull; return; }
      ghost var g := ring.flow;
      passed, c := PassByte(true, t);
      if !ring.overrun { DeliversTwice(f, g, ring.flow); }
    }

    /** The loop of bridge_uart_to_usb. */
    method Drain(turns: seq<Turn>) returns (processed: nat, stop: Stop, ghost bytes: Text)
      requires Valid() && |turns| > BURST
      modifies this`commands, ring, ring.cells, cdc, parser, parser.tagBuffer, parser.commandBuffer
      ensures Valid() && (old(ring.overrun) ==> ring.overrun) && processed <= BURST
      ensures !ring.overrun ==>
                && Delivers(old(ring.flow), ring.flow)
                && ring.flow.consumed == old(ring.flow.consumed) + processed
                && (stop == RingEmpty ==> ring.flow.Pending() == [])
      ensures stop == FifoFull ==> cdc.Room() == 0
      ensures stop == BurstDone ==> processed == BURST
      ensures |bytes| == processed && cdc.written == old(cdc.written) + bytes
      ensures |old(commands)| <= |commands| && commands[..|old(commands)|] == old(commands)
      ensures Hears(old(parser.View()), Told(bytes, turns), parser.View(), commands[|old(commands)|..])
    {
      processed, stop, bytes := 0, RingEmpty, [];
      ghost var more: seq<Tags.Command> := [];
      HearsNothing(parser.View());
      while true
        invariant Valid() && (old(ring.overrun) ==> ring.overrun) && processed <= BURST
        invariant !ring.overrun ==>
                    && Delivers(old(ring.flow), ring.flow)
                    && ring.flow.consumed == old(ring.flow.consumed) + processed
        invariant |bytes| == processed && cdc.written == old(cdc.written) + bytes && commands == old(commands) + more
        invariant Hears(old(parser.View()), Told(bytes, turns), parser.View(), more)
        decreases BURST - processed
      {
        var t := turns[processed];
        ghost var f, p := ring.flow, parser.View();
        var passed, c;
        passed, stop, c := Round(processed == BURST, t);
        if !ring.overrun { DeliversTwice(old(ring.flow), f, ring.flow); }
        if !passed { break; }
        HearsTurn(old(parser.View()), bytes, turns, p, more, c);
        more := more + Turned(p, c, t).commands;
        bytes := bytes + [c];
        processed := processed + 1;
      }
      assert commands[|old(commands)|..] == more;
    }

    /** bridge_uart_to_usb: while the host is connected and no reset pulse suppresses the stream,
        the bytes captured go to the host in order, each exactly once, until the ring is empty,
        the FIFO is full or the burst is used up; otherwise what the ring holds is dropped. */
    method UartToUsb(suppressed: bool, connected: bool, turns: seq<Turn>)
      returns (processed: nat, stop: Stop, ghost bytes: Text)
      requires Valid() && |turns| > BURST
      modifies this`commands, ring, ring.cells, cdc, parser, parser.tagBuffer, parser.commandBuffer
      ensures Valid() && (old(ring.overrun) ==> ring.overrun)
      ensures suppressed && !ring.overrun ==>
                ring.flow == Step(old(ring.flow), Discard(|old(ring.flow).captured|))
      ensures !suppressed && !connected && !ring.overrun ==>
                ring.flow == Step(old(ring.flow), Discard(old(ring.seen)))
      ensures !suppressed && connected && !ring.overrun ==>
                && Delivers(old(ring.flow), ring.flow)
                && ring.flow.consumed == old(ring.flow).consumed + processed
                && cdc.written == old(cdc.written)
                     + ring.flow.captured[old(ring.flow).consumed..ring.flow.consumed]
                && (stop == RingEmpty ==> ring.flow.Pending() == [])
                && (stop == FifoFull ==> cdc.Room() == 0)
                && (stop == BurstDone ==> processed == BURST)
      // the tag parser hears the bytes that went to the host, in order, and dispatches its commands
      ensures |bytes| == processed && processed <= |turns| && cdc.written == old(cdc.written) + bytes
      ensures |old(commands)| <= |commands| && commands[..|old(commands)|] == old(commands)
      ensures Hears(old(parser.View()), Told(bytes, turns), parser.View(), commands[|old(commands)|..])
    {
      processed, stop, bytes := 0, RingEmpty, [];
      HearsNothing(parser.View());
      if suppressed {
        ring.SyncHead();
        Drop();
        return;
      }
      if !connected {
        Drop();
        return;
      }
      processed, stop, bytes := Drain(turns);
      if !ring.overrun { DeliveredText(old(ring.flow), ring.flow); }
    }

    method Drop()
      requires Valid()
      modifies ring
      ensures Valid() && ring.overrun == old(ring.overrun)
      ensures !ring.overrun ==> ring.flow == Step(old(ring.flow), Discard(old(ring.seen)))
    {
      ring.DropToHead();
      assert ring.flow.Valid() && old(ring.flow).Valid();
      if !ring.overrun { assert ring.flow.Written() == old(ring.flow).Written(); }
    }
  }
}
