/**
 Fake GPIO inputs as a bank that shares one ADC column, and what any run of foreground and
 background reads does to it between two routing refreshes. A refresh may leave any rows closed on
 the column; the reads clear them up one by one.
 */
module FakeGpioScan {
  import opened Wrappers
  import opened RoundRobin

  const MAX_FAKE_GP_IN: nat := SLOTS
  const LANES: nat := 8

  datatype Input = Input(
    active: bool, userNode: int, thresholdHigh: real, thresholdLow: real, state: int,
    row: int, ready: bool, connected: bool)

  const UNUSED: Input := Input(false, -1, 2.0, 0.8, -1, -1, false, false)

  type Inputs = seq<Input>

  /** One reading of the ADC: for which row, and the rows that were closed on its column. */
  datatype Sample = Sample(slot: int, row: int, rows: set<int>) {
    predicate Single() { rows == {row} }
  }

  predicate Ready(i: Input) { i.active && i.ready }

  predicate Named(i: Input, node: int) { i.active && i.userNode == node }

  predicate InputFine(i: Input) {
    (Ready(i) ==> 0 <= i.row < LANES) && -1 <= i.state <= 1
  }

  predicate Fine(inputs: Inputs) { forall i :: 0 <= i < |inputs| ==> InputFine(inputs[i]) }

  /** At most the input connected last is marked. */
  predicate OnlyConnected(inputs: Inputs, current: int) {
    forall i :: 0 <= i < |inputs| && inputs[i].connected ==> i == current && Ready(inputs[i])
  }

  predicate NoneActive(inputs: Inputs) { forall i :: 0 <= i < |inputs| ==> !inputs[i].active }

  /** The first slot of a node, or -1. */
  function SlotOf(inputs: Inputs, node: int): (i: int)
    ensures -1 <= i < |inputs|
    ensures i >= 0 ==> Named(inputs[i], node)
    ensures forall j :: 0 <= j < |inputs| && Named(inputs[j], node) ==> 0 <= i <= j
  {
    IndexWhere(inputs, (i: Input) => Named(i, node))
  }

  /** The hysteresis: between the thresholds a reading is what it was. */
  function Level(volts: real, i: Input): int {
    if volts >= i.thresholdHigh then 1 else if volts <= i.thresholdLow then 0 else i.state
  }

  /** Inputs that differ in their reading and their mark at most. */
  predicate SameInputs(a: Inputs, b: Inputs) {
    |a| == |b| && forall i :: 0 <= i < |a| ==> b[i] == a[i].(state := b[i].state, connected := b[i].connected)
  }

  function ReadySlots(inputs: Inputs): (r: set<int>)
    requires |inputs| == MAX_FAKE_GP_IN
    ensures InTable(r)
  {
    set s | 0 <= s < |inputs| && Ready(inputs[s])
  }

  lemma ReadyStays(a: Inputs, b: Inputs)
    requires SameInputs(a, b) && |a| == MAX_FAKE_GP_IN
    ensures ReadySlots(a) == ReadySlots(b)
  {
  }

  lemma SameInputsTwice(a: Inputs, b: Inputs, c: Inputs)
    requires SameInputs(a, b) && SameInputs(b, c)
    ensures SameInputs(a, c)
  {
  }

  // ---- the bank ----

  /** `closed` is the rows closed on the ADC column, `visited` the slots of the background reads. */
  datatype Bank = Bank(
    inputs: Inputs, current: int, lastRead: int, closed: set<int>, samples: seq<Sample>, visited: seq<int>)
  {
    predicate Sound() {
      && |inputs| == MAX_FAKE_GP_IN && -1 <= current < MAX_FAKE_GP_IN && -1 <= lastRead < MAX_FAKE_GP_IN
      && Fine(inputs) && OnlyConnected(inputs, current)
    }

    /** The row of the input connected last, -1 without one. */
    function Row(): int {
      if 0 <= current < |inputs| && Ready(inputs[current]) then inputs[current].row else -1
    }

    /** The rows closed that no switch will open before it has connected them itself. */
    function Leftover(): set<int> { closed - {Row()} }
  }

  function Cleared(inputs: Inputs, current: int): (m: Inputs)
    ensures SameInputs(inputs, m)
  {
    if 0 <= current < |inputs| && Ready(inputs[current])
    then inputs[current := inputs[current].(connected := false)] else inputs
  }

  /** The mark moves to the input connected now. */
  function Marked(inputs: Inputs, current: int, slot: int): (m: Inputs)
    requires 0 <= slot < |inputs|
    ensures SameInputs(inputs, m)
  {
    var cleared := Cleared(inputs, current);
    cleared[slot := cleared[slot].(connected := true)]
  }

  /** Connect a ready slot and sample it. */
  function Taken(b: Bank, slot: int): Bank
    requires 0 <= slot < |b.inputs|
  {
    var row := b.inputs[slot].row;
    var closed := b.closed - {b.Row()} + {row};
    Bank(Marked(b.inputs, b.current, slot), slot, b.lastRead, closed, b.samples + [Sample(slot, row, closed)], b.visited)
  }

  function Stored(b: Bank, slot: int, reading: int): Bank
    requires 0 <= slot < |b.inputs|
  {
    b.(inputs := b.inputs[slot := b.inputs[slot].(state := reading)])
  }

  /** readFakeGPIO. */
  function Background(b: Bank, due: bool, volts: real): Bank
    requires b.Sound()
  {
    var slot := NextFrom(ReadySlots(b.inputs), Start(b.lastRead), 0);
    if !due || slot < 0 then b
    else Stored(Taken(b, slot), slot, Level(volts, b.inputs[slot])).(lastRead := slot, visited := b.visited + [slot])
  }

  /** A foreground reading: unknown counts as low. */
  function Reading(volts: real, i: Input): int {
    if Level(volts, i) < 0 then 0 else Level(volts, i)
  }

  /** fakeGpioRead; `output` is the state of a fake GPIO output on that node, or -1. */
  function Foreground(b: Bank, node: int, output: int, volts: real): Bank
    requires b.Sound()
  {
    var slot := SlotOf(b.inputs, node);
    if output >= 0 || slot < 0 || !b.inputs[slot].ready then b
    else Stored(Taken(b, slot), slot, Reading(volts, b.inputs[slot]))
  }

  datatype Event =
    | Poll(due: bool, volts: real)
    | Call(node: int, output: int, volts: real)

  function After(b: Bank, e: Event): Bank
    requires b.Sound()
  {
    match e
    case Poll(due, volts) => Background(b, due, volts)
    case Call(node, output, volts) => Foreground(b, node, output, volts)
  }

  lemma TakenIsSound(b: Bank, slot: int)
    requires b.Sound() && 0 <= slot < |b.inputs| && Ready(b.inputs[slot])
    ensures Taken(b, slot).Sound() && SameInputs(b.inputs, Taken(b, slot).inputs)
    ensures Taken(b, slot).Row() == b.inputs[slot].row
  {
    var m := Marked(b.inputs, b.current, slot);
    forall i | 0 <= i < |m| ensures InputFine(m[i]) { assert InputFine(b.inputs[i]); }
  }

  lemma StoredIsSound(b: Bank, slot: int, reading: int)
    requires b.Sound() && 0 <= slot < |b.inputs| && -1 <= reading <= 1
    ensures Stored(b, slot, reading).Sound() && SameInputs(b.inputs, Stored(b, slot, reading).inputs)
    ensures Stored(b, slot, reading).Row() == b.Row()
  {
    var m := Stored(b, slot, reading).inputs;
    forall i | 0 <= i < |m| ensures InputFine(m[i]) { assert InputFine(b.inputs[i]); }
  }

  // ---- one read ----

  /** The slot that an event samples, -1 for none. */
  function Sampled(b: Bank, e: Event): (slot: int)
    requires b.Sound()
    ensures -1 <= slot < MAX_FAKE_GP_IN
  {
    match e
    case Poll(due, _) => if due then NextFrom(ReadySlots(b.inputs), Start(b.lastRead), 0) else -1
    case Call(node, output, _) =>
      var slot := SlotOf(b.inputs, node);
      if output >= 0 || slot < 0 || !b.inputs[slot].ready then -1 else slot
  }

  /** What a read does: the sample is of its row and of what was left over, and takes the row off that. */
  ghost predicate ReadsOne(b: Bank, c: Bank, slot: int)
    requires 0 <= slot < |b.inputs|
  {
    var row := b.inputs[slot].row;
    && c.Sound() && SameInputs(b.inputs, c.inputs)
    && c.Leftover() == b.Leftover() - {row}
    && c.samples == b.samples + [Sample(slot, row, c.Leftover() + {row})]
  }

  lemma TakenReadsOne(b: Bank, slot: int, reading: int)
    requires b.Sound() && 0 <= slot < |b.inputs| && Ready(b.inputs[slot]) && -1 <= reading <= 1
    ensures ReadsOne(b, Stored(Taken(b, slot), slot, reading), slot)
  {
    var t, row := Taken(b, slot), b.inputs[slot].row;
    TakenIsSound(b, slot);
    StoredIsSound(t, slot, reading);
    SameInputsTwice(b.inputs, t.inputs, Stored(t, slot, reading).inputs);
    assert t.closed - {row} == b.Leftover() - {row};
    assert t.closed == (b.Leftover() - {row}) + {row};
  }

  lemma SampledIsReady(b: Bank, e: Event)
    requires b.Sound() && Sampled(b, e) >= 0
    ensures Ready(b.inputs[Sampled(b, e)])
  {
    if e.Poll? {
      var ready := ReadySlots(b.inputs);
      NextFromIsNext(ready, Start(b.lastRead), 0);
      assert Sampled(b, e) in ready;
    }
  }

  lemma EventReadsOne(b: Bank, e: Event)
    requires b.Sound()
    ensures Sampled(b, e) < 0 ==> After(b, e) == b
    ensures Sampled(b, e) >= 0 ==> ReadsOne(b, After(b, e), Sampled(b, e))
  {
    var slot := Sampled(b, e);
    if slot >= 0 {
      SampledIsReady(b, e);
      assert InputFine(b.inputs[slot]);
      TakenReadsOne(b, slot, if e.Poll? then Level(e.volts, b.inputs[slot]) else Reading(e.volts, b.inputs[slot]));
    }
  }

  // ---- every run ----

  function Run(b: Bank, events: seq<Event>): (c: Bank)
    requires b.Sound()
    ensures c.Sound() && |b.samples| <= |c.samples|
    decreases |events|
  {
    if events == [] then b
    else
      var before := Run(b, Front(events));
      EventReadsOne(before, Last(events));
      After(before, Last(events))
  }

  function RowsRead(samples: seq<Sample>): set<int> {
    if samples == [] then {} else RowsRead(Front(samples)) + {Last(samples).row}
  }

  /** The samples since `b`. */
  function Since(b: Bank, c: Bank): seq<Sample>
    requires |b.samples| <= |c.samples|
  {
    c.samples[|b.samples|..]
  }

  /** Sample k is of a ready input's row, together with the rows left over that no sample up to it was of. */
  ghost predicate SampleIs(b: Bank, samples: seq<Sample>, k: nat)
    requires k < |samples|
  {
    var s := samples[k];
    && 0 <= s.slot < |b.inputs| && Ready(b.inputs[s.slot]) && s.row == b.inputs[s.slot].row
    && s.rows == b.Leftover() - RowsRead(samples[..k + 1]) + {s.row}
  }

  /** Everything that reads have done since `b`. */
  ghost predicate Follows(b: Bank, c: Bank) {
    && c.Sound() && SameInputs(b.inputs, c.inputs)
    && |b.samples| <= |c.samples|
    && c.Leftover() == b.Leftover() - RowsRead(Since(b, c))
    && forall k :: 0 <= k < |Since(b, c)| ==> SampleIs(b, Since(b, c), k)
  }

  lemma FollowsOneMore(b: Bank, c: Bank, d: Bank, slot: int)
    requires Follows(b, c) && 0 <= slot < |c.inputs| && Ready(c.inputs[slot]) && ReadsOne(c, d, slot)
    ensures Follows(b, d)
  {
    var before, after, row := Since(b, c), Since(b, d), c.inputs[slot].row;
    SameInputsTwice(b.inputs, c.inputs, d.inputs);
    assert after == before + [Sample(slot, row, d.Leftover() + {row})];
    assert Front(after) == before;
    assert RowsRead(after) == RowsRead(before) + {row};
    assert d.Leftover() == b.Leftover() - RowsRead(after);
    forall k | 0 <= k < |after| ensures SampleIs(b, after, k) {
      if k < |before| {
        assert SampleIs(b, before, k) && after[..k + 1] == before[..k + 1];
      } else {
        assert after[..k + 1] == after;
      }
    }
  }

  lemma {:induction false} RunFollows(b: Bank, events: seq<Event>)
    requires b.Sound()
    ensures Follows(b, Run(b, events))
    decreases |events|
  {
    if events == [] {
      assert Since(b, b) == [];
      assert b.Leftover() - {} == b.Leftover();
    } else {
      var c, e := Run(b, Front(events)), Last(events);
      RunFollows(b, Front(events));
      EventReadsOne(c, e);
      if Sampled(c, e) >= 0 {
        SampledIsReady(c, e);
        FollowsOneMore(b, c, After(c, e), Sampled(c, e));
      }
    }
  }

  // ---- hysteresis ----

  /** The voltages at which a slot was sampled. */
  function VoltsOf(b: Bank, events: seq<Event>, slot: int): seq<real>
    requires b.Sound()
    decreases |events|
  {
    if events == [] then []
    else
      VoltsOf(b, Front(events), slot)
      + if Sampled(Run(b, Front(events)), Last(events)) == slot then [Last(events).volts] else []
  }

  predicate Undecided(v: real, i: Input) { i.thresholdLow < v < i.thresholdHigh }

  /** One event changes the reading of the slot it samples, and of no other. */
  lemma EventSetsReading(b: Bank, e: Event, slot: int)
    requires b.Sound() && 0 <= slot < |b.inputs|
    ensures |After(b, e).inputs| == |b.inputs|
    ensures var was, now := b.inputs[slot], After(b, e).inputs[slot];
            if Sampled(b, e) != slot then now.state == was.state
            else if e.volts >= was.thresholdHigh then now.state == 1
            else if e.volts <= was.thresholdLow then now.state == 0
            else now.state == was.state || (was.state == -1 && now.state == 0 && e.Call?)
  {
    EventReadsOne(b, e);
    assert InputFine(b.inputs[slot]);
    if Sampled(b, e) >= 0 { SampledIsReady(b, e); }
  }

  /** Between the thresholds an input keeps its reading, over any run: it is what the last sample said
      that was not between them. */
  lemma {:induction false} LastDecisiveSampleStands(b: Bank, events: seq<Event>, slot: int, k: nat)
    requires b.Sound() && 0 <= slot < |b.inputs| && k < |VoltsOf(b, events, slot)|
    requires !Undecided(VoltsOf(b, events, slot)[k], b.inputs[slot])
    requires forall j :: k < j < |VoltsOf(b, events, slot)| ==> Undecided(VoltsOf(b, events, slot)[j], b.inputs[slot])
    ensures |Run(b, events).inputs| == |b.inputs|
    ensures Run(b, events).inputs[slot].state ==
              if VoltsOf(b, events, slot)[k] >= b.inputs[slot].thresholdHigh then 1 else 0
    decreases |events|
  {
    var c, e := Run(b, Front(events)), Last(events);
    var before, vs := VoltsOf(b, Front(events), slot), VoltsOf(b, events, slot);
    RunFollows(b, Front(events));
    EventSetsReading(c, e, slot);
    if k < |before| {
      assert forall j :: k < j < |before| ==> vs[j] == before[j];
      LastDecisiveSampleStands(b, Front(events), slot, k);
      assert Sampled(c, e) == slot ==> Undecided(vs[|before|], b.inputs[slot]);
    }
  }

  /** Until such a sample the reading stays what it was, but that a foreground read makes an unknown
      one low. */
  lemma {:induction false} UndecidedKeepsReading(b: Bank, events: seq<Event>, slot: int)
    requires b.Sound() && 0 <= slot < |b.inputs|
    requires forall j :: 0 <= j < |VoltsOf(b, events, slot)| ==> Undecided(VoltsOf(b, events, slot)[j], b.inputs[slot])
    ensures |Run(b, events).inputs| == |b.inputs|
    ensures var was, now := b.inputs[slot].state, Run(b, events).inputs[slot].state;
            now == was || (was == -1 && now == 0)
    decreases |events|
  {
    if events != [] {
      var c, e := Run(b, Front(events)), Last(events);
      var before, vs := VoltsOf(b, Front(events), slot), VoltsOf(b, events, slot);
      RunFollows(b, Front(events));
      EventSetsReading(c, e, slot);
      assert forall j :: 0 <= j < |before| ==> vs[j] == before[j];
      UndecidedKeepsReading(b, Front(events), slot);
      assert Sampled(c, e) == slot ==> Undecided(vs[|before|], b.inputs[slot]);
    }
  }

  // ---- which samples are of one row ----

  /** A sample is of its row alone exactly when nothing but that row and the one connected last was
      closed before it. */
  lemma SampleIsSingleIff(b: Bank, e: Event)
    requires b.Sound() && Sampled(b, e) >= 0
    ensures var s := After(b, e).samples;
            && |s| == |b.samples| + 1
            && Last(s).slot == Sampled(b, e) && Last(s).row == b.inputs[Sampled(b, e)].row
            && (Last(s).Single() <==> b.closed <= {b.Row(), Last(s).row})
  {
    EventReadsOne(b, e);
    var row := b.inputs[Sampled(b, e)].row;
    SingleIff(b.Leftover(), row);
    WithinIff(b.closed, b.Row(), row);
  }

  lemma WithinIff(closed: set<int>, oldY: int, newY: int)
    ensures closed - {oldY} <= {newY} <==> closed <= {oldY, newY}
  {
    forall y | y in closed && y != oldY ensures y in closed - {oldY} {}
  }

  lemma SingleIff(left: set<int>, row: int)
    ensures left - {row} + {row} == {row} <==> left <= {row}
  {
    assert left - {row} + {row} == left + {row};
    assert left + {row} == {row} ==> left <= {row} by { if left + {row} == {row} { assert left <= left + {row}; } }
  }

  /** In any run, sample k is of one row exactly when every row left over has been read by then. */
  lemma RunSampleIsSingleIff(b: Bank, events: seq<Event>, k: nat)
    requires b.Sound() && k < |Since(b, Run(b, events))|
    ensures var s := Since(b, Run(b, events));
            && 0 <= s[k].slot < |b.inputs| && s[k].row == b.inputs[s[k].slot].row
            && (s[k].Single() <==> b.Leftover() <= RowsRead(s[..k + 1]))
  {
    RunFollows(b, events);
    var s := Since(b, Run(b, events));
    assert SampleIs(b, s, k);
    assert Front(s[..k + 1]) == s[..k] && Last(s[..k + 1]) == s[k];
    LeftIff(b.Leftover(), RowsRead(s[..k + 1]), s[k].row);
  }

  lemma LeftIff(left: set<int>, read: set<int>, row: int)
    requires row in read
    ensures left - read + {row} == {row} <==> left <= read
  {
    var rest := left - read;
    assert (rest + {row}) - {row} == rest;
    assert {row} - {row} == {};
    assert forall y :: y in rest <==> y in left && y !in read;
    if rest == {} {
      forall y | y in left ensures y in read { assert y !in rest; }
    }
  }

  // ---- a lap of background reads ----

  /** How many background reads a run makes. */
  function Polls(events: seq<Event>): nat {
    if events == [] then 0 else Polls(Front(events)) + if Last(events).Poll? && Last(events).due then 1 else 0
  }

  function Visited(b: Bank, c: Bank): seq<int>
    requires |b.visited| <= |c.visited|
  {
    c.visited[|b.visited|..]
  }

  /** The background reads since `b` went around, and every one of them read a row. */
  ghost predicate GoesAround(b: Bank, c: Bank)
    requires b.Sound() && c.Sound() && |b.samples| <= |c.samples|
  {
    && |b.visited| <= |c.visited|
    && var v := Visited(b, c);
       && Visits(ReadySlots(b.inputs), b.lastRead, v)
       && c.lastRead == Previous(b.lastRead, v, |v|)
       && forall k :: 0 <= k < |v| ==> 0 <= v[k] < |b.inputs| && b.inputs[v[k]].row in RowsRead(Since(b, c))
  }

  lemma VisitsOneMore(ready: set<int>, last: int, v: seq<int>, next: int)
    requires InTable(ready) && -1 <= last < SLOTS && Visits(ready, last, v)
    requires -1 <= Previous(last, v, |v|) < SLOTS && IsNext(ready, Start(Previous(last, v, |v|)), next)
    ensures Visits(ready, last, v + [next]) && Previous(last, v + [next], |v| + 1) == next
  {
    var w := v + [next];
    forall k | 0 <= k < |w| ensures VisitAt(ready, last, w, k) {
      assert k > 0 ==> VisitAt(ready, last, v, k - 1);
      assert k < |v| ==> VisitAt(ready, last, v, k);
      assert Previous(last, w, k) == Previous(last, v, k);
    }
  }

  lemma SinceOneMore(b: Bank, c: Bank, d: Bank, slot: int)
    requires |b.samples| <= |c.samples| && 0 <= slot < |c.inputs| && ReadsOne(c, d, slot)
    ensures |b.samples| <= |d.samples| && RowsRead(Since(b, d)) == RowsRead(Since(b, c)) + {c.inputs[slot].row}
  {
    var s := Since(b, d);
    assert Front(s) == Since(b, c) && Last(s).row == c.inputs[slot].row;
  }

  /** A foreground read leaves the round alone. */
  lemma AroundAfterCall(b: Bank, c: Bank, e: Event)
    requires b.Sound() && Follows(b, c) && GoesAround(b, c) && e.Call?
    ensures |b.samples| <= |After(c, e).samples| && After(c, e).Sound() && GoesAround(b, After(c, e))
    ensures Visited(b, After(c, e)) == Visited(b, c)
  {
    EventReadsOne(c, e);
    if Sampled(c, e) >= 0 { SinceOneMore(b, c, After(c, e), Sampled(c, e)); }
  }

  lemma AroundAfterPoll(b: Bank, c: Bank, e: Event)
    requires b.Sound() && Follows(b, c) && GoesAround(b, c) && e.Poll? && Sampled(c, e) >= 0
    ensures |b.samples| <= |After(c, e).samples| && After(c, e).Sound() && GoesAround(b, After(c, e))
    ensures Visited(b, After(c, e)) == Visited(b, c) + [Sampled(c, e)]
  {
    var d, slot, v := After(c, e), Sampled(c, e), Visited(b, c);
    EventReadsOne(c, e);
    SinceOneMore(b, c, d, slot);
    ReadyStays(b.inputs, c.inputs);
    NextFromIsNext(ReadySlots(c.inputs), Start(c.lastRead), 0);
    VisitsOneMore(ReadySlots(b.inputs), b.lastRead, v, slot);
    assert d.visited == c.visited + [slot] && d.lastRead == slot;
    var w := Visited(b, d);
    assert w == v + [slot];
    forall k | 0 <= k < |w| ensures 0 <= w[k] < |b.inputs| && b.inputs[w[k]].row in RowsRead(Since(b, d)) {
      assert k < |v| ==> w[k] == v[k];
      assert b.inputs[slot].row == c.inputs[slot].row;
    }
  }

  lemma {:induction false} RunGoesAround(b: Bank, events: seq<Event>)
    requires b.Sound()
    ensures |b.samples| <= |Run(b, events).samples| && GoesAround(b, Run(b, events))
    ensures |Visited(b, Run(b, events))| == if ReadySlots(b.inputs) == {} then 0 else Polls(events)
    decreases |events|
  {
    if events == [] {
      assert Visited(b, b) == [];
    } else {
      var c, e := Run(b, Front(events)), Last(events);
      RunFollows(b, Front(events));
      RunGoesAround(b, Front(events));
      if e.Call? {
        AroundAfterCall(b, c, e);
      } else {
        ReadyStays(b.inputs, c.inputs);
        NextFromIsNext(ReadySlots(c.inputs), Start(c.lastRead), 0);
        if Sampled(c, e) >= 0 { AroundAfterPoll(b, c, e); }
      }
    }
  }

  /** Any n background reads of n ready inputs, with any foreground reads between them, take each
      input exactly once. */
  lemma LapReadsEachOnce(b: Bank, events: seq<Event>)
    requires b.Sound() && Polls(events) == |ReadySlots(b.inputs)|
    ensures |b.visited| <= |Run(b, events).visited|
    ensures var v := Visited(b, Run(b, events));
            && Elements(v) == ReadySlots(b.inputs)
            && forall i, j :: 0 <= i < j < |v| ==> v[i] != v[j]
  {
    RunGoesAround(b, events);
    EveryInputOnce(ReadySlots(b.inputs), b.lastRead, Visited(b, Run(b, events)));
  }

  function ReadyRows(inputs: Inputs): set<int> { set s | 0 <= s < |inputs| && Ready(inputs[s]) :: inputs[s].row }

  lemma {:induction false} OnlyReadyRowsRead(b: Bank, samples: seq<Sample>)
    requires forall k :: 0 <= k < |samples| ==>
               0 <= samples[k].slot < |b.inputs| && Ready(b.inputs[samples[k].slot]) && samples[k].row == b.inputs[samples[k].slot].row
    ensures RowsRead(samples) <= ReadyRows(b.inputs)
  {
    if samples != [] { OnlyReadyRowsRead(b, Front(samples)); }
  }

  lemma {:induction false} ElementsOccur(v: seq<int>, x: int) returns (k: nat)
    requires x in Elements(v)
    ensures k < |v| && v[k] == x
  {
    if x == v[|v| - 1] { k := |v| - 1; } else { k := ElementsOccur(v[..|v| - 1], x); }
  }

  /** After a lap exactly the rows of the ready inputs have been read. */
  lemma LapReadsAllRows(b: Bank, events: seq<Event>)
    requires b.Sound() && Polls(events) >= |ReadySlots(b.inputs)|
    ensures |b.samples| <= |Run(b, events).samples|
    ensures RowsRead(Since(b, Run(b, events))) == ReadyRows(b.inputs)
  {
    var c, ready := Run(b, events), ReadySlots(b.inputs);
    RunFollows(b, events);
    RunGoesAround(b, events);
    forall k | 0 <= k < |Since(b, c)|
      ensures var s := Since(b, c)[k];
              0 <= s.slot < |b.inputs| && Ready(b.inputs[s.slot]) && s.row == b.inputs[s.slot].row
    {
      assert SampleIs(b, Since(b, c), k);
    }
    OnlyReadyRowsRead(b, Since(b, c));
    forall y | y in ReadyRows(b.inputs) ensures y in RowsRead(Since(b, c)) {
      var s :| 0 <= s < |b.inputs| && Ready(b.inputs[s]) && b.inputs[s].row == y;
      assert s in ready;
      var v := Visited(b, c)[..|ready|];
      LapPrefix(ready, b.lastRead, Visited(b, c));
      var k := ElementsOccur(v, s);
      assert Visited(b, c)[k] == s;
    }
  }

  lemma LapPrefix(ready: set<int>, last: int, v: seq<int>)
    requires InTable(ready) && -1 <= last < SLOTS && Visits(ready, last, v) && |v| >= |ready|
    ensures Elements(v[..|ready|]) == ready
  {
    var w := v[..|ready|];
    forall k | 0 <= k < |w| ensures VisitAt(ready, last, w, k) { assert VisitAt(ready, last, v, k); }
    EveryInputOnce(ready, last, w);
  }

  /** From the n-th background read on, and until the next refresh, every sample is of one row if
      all the rows left over belong to ready inputs, and none ever is otherwise. */
  lemma FromLapOnSingleIff(b: Bank, events: seq<Event>, e: Event)
    requires b.Sound() && Polls(events + [e]) >= |ReadySlots(b.inputs)| && Sampled(Run(b, events), e) >= 0
    ensures var s := Run(b, events + [e]).samples;
            s != [] && (Last(s).Single() <==> b.Leftover() <= ReadyRows(b.inputs))
  {
    var all := events + [e];
    LastIsSampled(b, events, e);
    LapReadsAllRows(b, all);
    var s := Since(b, Run(b, all));
    RunSampleIsSingleIff(b, all, |s| - 1);
    assert s[..|s| - 1 + 1] == s;
  }

  lemma LastIsSampled(b: Bank, events: seq<Event>, e: Event)
    requires b.Sound() && Sampled(Run(b, events), e) >= 0
    ensures var d := Run(b, events + [e]);
            d.samples != [] && Since(b, d) != [] && Last(Since(b, d)) == Last(d.samples)
  {
    var c := Run(b, events);
    assert Front(events + [e]) == events && Last(events + [e]) == e;
    EventReadsOne(c, e);
  }

  /** Two inputs left on the column by a refresh: the first sample mixes them. */
  lemma FirstSampleMixes(b: Bank, e: Event, other: int)
    requires b.Sound() && Sampled(b, e) >= 0 && other in b.closed
    requires other != b.Row() && other != b.inputs[Sampled(b, e)].row
    ensures !Last(After(b, e).samples).Single()
  {
    SampleIsSingleIff(b, e);
  }
}
