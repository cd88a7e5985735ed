/**
 The fake GPIO input table on chip K: connecting, reading in the foreground and in the background,
 configuring and removing. The reads are proved to be those of the bank model.
 */
module FakeGpioInput {
  import opened Wrappers
  import opened Crosspoints
  import opened Router
  import opened Wiring
  import opened RoundRobin
  import opened FakeGpioScan

  /** Channel 0 unless one is assigned. */
  function AdcColumn(channel: int): (x: int)
    ensures 8 <= x < 12 && x !in SOURCES
  {
    if channel < 0 || channel > 3 then 8 else 8 + channel
  }

  /** That column is wired to the ADC channel. */
  lemma AdcColumnIsWired(channel: int)
    ensures WireOf(AdcColumn(channel)) == Node(if 0 <= channel <= 3 then ADC0 + channel else ADC0)
  {
  }

  /** The rows closed on a column. */
  function AdcRows(rows: Rows, x: int): set<int> { set y | 0 <= y < |rows| && x in rows[y] }

  lemma OneCommand(rows: Rows, x: int, y: int, on: bool)
    requires 0 <= y < |rows| && x !in SOURCES
    ensures AdcRows(rows[y := Sent(rows[y], x, on)], x) == if on then AdcRows(rows, x) + {y} else AdcRows(rows, x) - {y}
  {
  }

  lemma OffTheChip(rows: Rows, x: int)
    ensures AdcRows(rows, x) - {-1} == AdcRows(rows, x)
  {
  }

  function FreeSlot(inputs: Inputs): (i: int)
    ensures -1 <= i < |inputs|
    ensures i >= 0 ==> !inputs[i].active
    ensures forall j :: 0 <= j < |inputs| && !inputs[j].active ==> 0 <= i <= j
  {
    IndexWhere(inputs, (i: Input) => !i.active)
  }

  /** The slot a node is configured in. */
  function SlotFor(inputs: Inputs, node: int): (i: int)
    ensures -1 <= i < |inputs|
  {
    if SlotOf(inputs, node) >= 0 then SlotOf(inputs, node) else FreeSlot(inputs)
  }

  /** A configured input: ready when the search found its row. */
  function Configured(node: int, high: real, low: real, found: Option<int>): Input {
    Input(true, node, high, low, -1, if found.Some? then found.value else -1, found.Some? && found.value >= 0, false)
  }

  function Routed(i: Input, found: Option<int>): Input {
    if found.None? then i else i.(row := found.value, ready := found.value >= 0)
  }

  /** A connected input is disconnected before it is configured again. */
  function BeforeConfig(inputs: Inputs, current: int, node: int): Inputs {
    if SlotOf(inputs, node) >= 0 && current == SlotOf(inputs, node) then Cleared(inputs, current) else inputs
  }

  lemma MarkedIsSound(inputs: Inputs, current: int, slot: int)
    requires Fine(inputs) && OnlyConnected(inputs, current) && 0 <= slot < |inputs| && Ready(inputs[slot])
    ensures Fine(Marked(inputs, current, slot)) && OnlyConnected(Marked(inputs, current, slot), slot)
  {
    var m := Marked(inputs, current, slot);
    forall i | 0 <= i < |m| ensures InputFine(m[i]) { assert InputFine(inputs[i]); }
  }

  lemma ClearedIsSound(inputs: Inputs, current: int)
    requires Fine(inputs) && OnlyConnected(inputs, current)
    ensures Fine(Cleared(inputs, current))
    ensures forall c :: OnlyConnected(Cleared(inputs, current), c)
  {
    var m := Cleared(inputs, current);
    forall i | 0 <= i < |m| ensures InputFine(m[i]) && !m[i].connected { assert InputFine(inputs[i]); }
  }

  lemma ReplacedIsSound(inputs: Inputs, current: int, slot: int, input: Input)
    requires Fine(inputs) && OnlyConnected(inputs, current) && 0 <= slot < |inputs|
    requires InputFine(input) && !input.connected
    ensures Fine(inputs[slot := input]) && OnlyConnected(inputs[slot := input], current)
  {
    var m := inputs[slot := input];
    forall i | 0 <= i < |m| ensures InputFine(m[i]) { if i != slot { assert InputFine(inputs[i]); } }
  }

  lemma MarkIfReady(inputs: Inputs, current: int, slot: nat)
    requires Fine(inputs) && OnlyConnected(inputs, current)
    ensures slot < |inputs| && Ready(inputs[slot]) ==>
              Fine(Marked(inputs, current, slot)) && OnlyConnected(Marked(inputs, current, slot), slot)
  {
    if slot < |inputs| && Ready(inputs[slot]) { MarkedIsSound(inputs, current, slot); }
  }

  lemma SlotIsReady(inputs: Inputs, slot: int)
    requires |inputs| == MAX_FAKE_GP_IN && 0 <= slot < |inputs|
    ensures slot in ReadySlots(inputs) <==> Ready(inputs[slot])
  {
  }

  lemma NextIsReady(inputs: Inputs, last: int)
    requires |inputs| == MAX_FAKE_GP_IN && -1 <= last < MAX_FAKE_GP_IN
    ensures var next := NextFrom(ReadySlots(inputs), Start(last), 0); next >= 0 ==> Ready(inputs[next])
  {
    NextFromIsNext(ReadySlots(inputs), Start(last), 0);
  }

  /** What fakeGpioRead returns. */
  function Returned(inputs: Inputs, node: int, output: int, volts: real): int {
    var slot := SlotOf(inputs, node);
    if output >= 0 then output else if slot < 0 || !inputs[slot].ready then -1 else Reading(volts, inputs[slot])
  }

  method Hysteresis(volts: real, i: Input, between: int) returns (reading: int)
    ensures reading == if volts >= i.thresholdHigh then 1 else if volts <= i.thresholdLow then 0 else between
  {
    reading := between;
    if volts >= i.thresholdHigh {
      reading := 1;
    } else if volts <= i.thresholdLow {
      reading := 0;
    }
  }

  class Table {
    const slots: array<Input>
    const chip: ChipK
    var current: int
    var channel: int
    /** The slot of the last background read. */
    var lastRead: int
    ghost var samples: seq<Sample>
    ghost var visited: seq<int>

    ghost function Closed(): set<int>
      reads this, chip
    {
      AdcRows(chip.closed, AdcColumn(channel))
    }

    ghost function View(): Bank
      reads this, slots, chip
    {
      Bank(slots[..], current, lastRead, Closed(), samples, visited)
    }

    ghost predicate Valid()
      reads this, slots, chip, chip.connected
    {
      && slots.Length == MAX_FAKE_GP_IN && (slots as object) != chip.connected && chip.Valid()
      && View().Sound() && -1 <= channel < 4 && (channel < 0 ==> NoneActive(slots[..]))
    }

    constructor (chip: ChipK)
      requires chip.Valid()
      ensures Valid() && this.chip == chip && fresh(slots) && slots[..] == seq(MAX_FAKE_GP_IN, _ => UNUSED)
      ensures current == -1 && lastRead == -1 && channel == -1 && samples == [] && visited == []
    {
      slots := new Input[MAX_FAKE_GP_IN](_ => UNUSED);
      this.chip := chip;
      current, lastRead, channel, samples, visited := -1, -1, -1, [], [];
      new;
      assert slots[..] == seq(MAX_FAKE_GP_IN, _ => UNUSED);
    }

    method FindInputSlot(node: int) returns (i: int)
      ensures i == SlotOf(slots[..], node)
    {
      for k := 0 to slots.Length
        invariant forall j :: 0 <= j < k ==> !Named(slots[j], node)
      {
        if slots[k].active && slots[k].userNode == node {
          assert Named(slots[..][k], node);
          return k;
        }
      }
      return -1;
    }

    method FindFreeInputSlot() returns (i: int)
      ensures i == FreeSlot(slots[..])
    {
      for k := 0 to slots.Length
        invariant forall j :: 0 <= j < k ==> slots[j].active
      {
        if !slots[k].active {
          assert !slots[..][k].active;
          return k;
        }
      }
      return -1;
    }

    /** Open the old row and close the new one; false when there is no new one. */
    method FastSwitchInputChipK(oldY: int, newY: int) returns (ok: bool)
      requires chip.Valid()
      modifies chip, chip.connected
      ensures chip.Valid() && (ok <==> 0 <= newY < ROWS)
      ensures Closed() == old(Closed()) - (if oldY == newY then {} else {oldY}) + (if ok then {newY} else {})
    {
      var x := AdcColumn(channel);
      if oldY >= 0 && oldY != newY && oldY < ROWS {
        OneCommand(chip.closed, x, oldY, false);
        chip.SendXYraw(x, oldY, false);
      }
      if newY >= 0 && newY < ROWS {
        OneCommand(chip.closed, x, newY, true);
        chip.SendXYraw(x, newY, true);
        return true;
      }
      return false;
    }

    /** The old input is no longer marked as connected, whatever comes next. */
    method Unmark() returns (oldY: int)
      requires Valid()
      modifies slots
      ensures Valid() && slots[..] == Cleared(old(slots[..]), current)
      ensures oldY == View().Row() == old(View()).Row()
    {
      oldY := -1;
      ghost var was := slots[..];
      ClearedIsSound(was, current);
      if 0 <= current < MAX_FAKE_GP_IN && slots[current].active && slots[current].ready {
        oldY := slots[current].row;
        slots[current] := slots[current].(connected := false);
      }
      assert slots[..] == Cleared(was, current);
    }

    /** connectFakeGpioInput for a slot. */
    method ConnectSlot(slot: nat) returns (ok: bool)
      requires Valid()
      modifies this`current, slots, chip, chip.connected
      ensures Valid()
      ensures ok <==> channel >= 0 && slot < MAX_FAKE_GP_IN && Ready(old(slots[..])[slot])
      ensures if !ok then
                && current == old(current) && Closed() == old(Closed())
                && slots[..] == if channel < 0 then old(slots[..]) else Cleared(old(slots[..]), old(current))
              else
                && slots[..] == Marked(old(slots[..]), old(current), slot) && current == slot
                && Closed() == old(Closed()) - {old(View()).Row()} + {slots[slot].row}
    {
      if channel < 0 { return false; }
      MarkIfReady(slots[..], current, slot);
      var oldY := Unmark();
      if slot >= MAX_FAKE_GP_IN { return false; }
      if !slots[slot].active || !slots[slot].ready { return false; }
      if current == slot && slots[slot].connected { return true; }
      assert InputFine(slots[..][slot]);
      ok := FastSwitchInputChipK(oldY, slots[slot].row);
      ghost var was := slots[..];
      slots[slot] := slots[slot].(connected := true);
      assert slots[..] == was[slot := was[slot].(connected := true)];
      current := slot;
    }

    /** connectFakeGpioInput(-1). */
    method DisconnectAll()
      requires Valid()
      modifies this`current, slots, chip, chip.connected
      ensures Valid() && slots[..] == Cleared(old(slots[..]), old(current)) && current == -1
      ensures channel >= 0 ==> Closed() == old(Closed()) - {old(View()).Row()} && View().Leftover() == old(View()).Leftover()
    {
      OffTheChip(chip.closed, AdcColumn(channel));
      ClearedIsSound(slots[..], current);
      var oldY := Unmark();
      if oldY >= 0 && channel >= 0 {
        assert InputFine(slots[..][current]);
        OneCommand(chip.closed, AdcColumn(channel), oldY, false);
        chip.SendXYraw(AdcColumn(channel), oldY, false);
        OffTheChip(chip.closed, AdcColumn(channel));
      }
      current := -1;
    }

    /** Connect and sample, in the foreground or in the background. */
    method Take(slot: nat)
      requires Valid() && slot < MAX_FAKE_GP_IN && Ready(slots[slot])
      modifies this`current, this`samples, slots, chip, chip.connected
      ensures Valid() && View() == Taken(old(View()), slot)
    {
      assert slots[..][slot].active;
      var ok := ConnectSlot(slot);
      samples := samples + [Sample(slot, slots[slot].row, Closed())];
    }

    method Store(slot: nat, reading: int)
      requires Valid() && slot < MAX_FAKE_GP_IN && -1 <= reading <= 1
      modifies slots
      ensures Valid() && View() == Stored(old(View()), slot, reading)
    {
      ghost var was := slots[..];
      StoredIsSound(View(), slot, reading);
      slots[slot] := slots[slot].(state := reading);
      assert slots[..] == was[slot := was[slot].(state := reading)];
    }

    /** fakeGpioRead. `output` is the state of a fake GPIO output on that node, or -1. */
    method Read(node: int, output: int, volts: real) returns (reading: int)
      requires Valid()
      modifies this`current, this`samples, slots, chip, chip.connected
      ensures Valid() && View() == After(old(View()), Call(node, output, volts))
      ensures reading == Returned(old(slots[..]), node, output, volts)
      // an output's own state comes first, then that nothing is configured there, then the reading
      ensures output >= 0 ==> reading == output
      ensures output < 0 && !(exists i :: 0 <= i < slots.Length && old(slots[..])[i].active && old(slots[..])[i].userNode == node) ==>
                reading == -1
      ensures 0 <= reading && output < 0 ==>
                var i := SlotOf(old(slots[..]), node); 0 <= i < slots.Length && reading == slots[i].state && reading <= 1
    {
      if output >= 0 { return output; }
      var slot := FindInputSlot(node);
      if slot < 0 { return -1; }
      assert InputFine(slots[..][slot]);
      var input := slots[slot];
      if !input.ready { return -1; }
      reading := Hysteresis(volts, input, if input.state >= 0 then input.state else 0);
      TakeAndStore(slot, reading);
    }

    method TakeAndStore(slot: nat, reading: int)
      requires Valid() && slot < MAX_FAKE_GP_IN && Ready(slots[slot]) && -1 <= reading <= 1
      modifies this`current, this`samples, slots, chip, chip.connected
      ensures Valid() && View() == Stored(Taken(old(View()), slot), slot, reading)
    {
      Take(slot);
      Store(slot, reading);
    }

    /** The round-robin search of a background read. */
    method NextReady() returns (next: int)
      requires slots.Length == MAX_FAKE_GP_IN && -1 <= lastRead < MAX_FAKE_GP_IN
      ensures next == NextFrom(ReadySlots(slots[..]), Start(lastRead), 0)
    {
      var start := if lastRead + 1 == MAX_FAKE_GP_IN then 0 else lastRead + 1;
      ghost var ready := ReadySlots(slots[..]);
      for i := 0 to MAX_FAKE_GP_IN
        invariant forall k: nat :: k < i ==> Around(start, k) !in ready
      {
        var slot := Around(start, i);
        SlotIsReady(slots[..], slot);
        if slots[slot].active && slots[slot].ready {
          SearchedSoFar(ready, start, 0, i);
          return slot;
        }
      }
      SearchedSoFar(ready, start, 0, MAX_FAKE_GP_IN);
      return -1;
    }

    /** readFakeGPIO; `due` is whether the interval since the last call is over. */
    method ReadBackground(due: bool, volts: real)
      requires Valid()
      modifies this`current, this`samples, this`lastRead, this`visited, slots, chip, chip.connected
      ensures Valid() && View() == After(old(View()), Poll(due, volts))
    {
      if !due { return; }
      var next := NextReady();
      if next < 0 { return; }
      NextIsReady(slots[..], lastRead);
      var input := slots[next];
      assert InputFine(slots[..][next]);
      var reading := Hysteresis(volts, input, input.state);
      TakeNext(next, reading);
    }

    /** A background read of a slot, remembered for the next one. */
    method TakeNext(next: nat, reading: int)
      requires Valid() && next < MAX_FAKE_GP_IN && Ready(slots[next]) && -1 <= reading <= 1
      modifies this`current, this`samples, this`lastRead, this`visited, slots, chip, chip.connected
      ensures Valid()
      ensures View() == Stored(Taken(old(View()), next), next, reading).(lastRead := next, visited := old(visited) + [next])
    {
      TakeAndStore(next, reading);
      lastRead, visited := next, visited + [next];
    }

    method AnyActive() returns (any: bool)
      ensures any <==> !NoneActive(slots[..])
    {
      any := false;
      for i := 0 to slots.Length
        invariant any <==> exists j :: 0 <= j < i && slots[j].active
      {
        if slots[i].active { any := true; }
      }
    }

    /** fakeGpioRemoveInput, and the refresh that ends it. */
    method RemoveInput(node: int, answer: Routing) returns (ok: bool)
      requires Valid() && |answer.bits| == ROWS
      modifies this`current, this`channel, slots, chip, chip.connected
      ensures Valid() && samples == old(samples) && lastRead == old(lastRead)
      ensures ok <==> SlotOf(old(slots[..]), node) >= 0
      ensures !ok ==> View() == old(View()) && channel == old(channel)
      ensures ok ==> var slot := SlotOf(old(slots[..]), node);
                     && current == (if old(current) == slot then -1 else old(current))
                     && slots[..] == (if old(current) == slot then Cleared(old(slots[..]), slot) else old(slots[..]))[slot := UNUSED]
                     && channel == (if NoneActive(slots[..]) then -1 else old(channel))
                     && (NoShort(RowsOf(answer.bits)) ==> chip.closed == RowsOf(answer.bits))
    {
      var slot := FindInputSlot(node);
      if slot == -1 { return false; }
      if current == slot { DisconnectAll(); }
      Release(slot);
      chip.ApplyChipXYState(answer.bits);
      return true;
    }

    /** The slot is free, and the channel with the last of them. */
    method Release(slot: nat)
      requires Valid() && slot < MAX_FAKE_GP_IN
      modifies this`channel, slots
      ensures Valid() && slots[..] == old(slots[..])[slot := UNUSED]
      ensures channel == if NoneActive(slots[..]) then -1 else old(channel)
    {
      Fill(slot, UNUSED);
      var anyActive := AnyActive();
      if !anyActive { channel := -1; }
    }

    /** The tail of a configuration: the refresh, the search, and the new row off the column. */
    method Route(slot: nat, answer: Routing)
      requires Valid() && |answer.bits| == ROWS && slot < MAX_FAKE_GP_IN && slots[slot].active && !slots[slot].connected
      requires !slots[slot].ready && slots[slot].row == -1
      requires FirstPathRow(answer.paths, slots[slot].userNode).Some? ==>
                 -1 <= FirstPathRow(answer.paths, slots[slot].userNode).value < ROWS
      modifies slots, chip, chip.connected
      ensures Valid()
      ensures var found := FirstPathRow(answer.paths, old(slots[slot]).userNode);
              && slots[..] == old(slots[..])[slot := Routed(old(slots[slot]), found)]
              && (NoShort(RowsOf(answer.bits)) ==>
                    Closed() == AdcRows(RowsOf(answer.bits), AdcColumn(channel)) - {Routed(old(slots[slot]), found).row})
    {
      ghost var was := slots[..];
      chip.ApplyChipXYState(answer.bits);
      var r := SearchFirstPath(answer.paths, slots[slot].userNode);
      assert InputFine(was[slot]);
      ReplacedIsSound(was, current, slot, Routed(was[slot], r));
      OffTheChip(chip.closed, AdcColumn(channel));
      if r.Some? {
        slots[slot] := slots[slot].(row := r.value);
        if r.value >= 0 {
          slots[slot] := slots[slot].(ready := true);
          OneCommand(chip.closed, AdcColumn(channel), r.value, false);
          chip.SendXYraw(AdcColumn(channel), r.value, false);
        }
      }
      assert slots[..] == was[slot := Routed(was[slot], r)];
    }

    /** The slot of a configuration, an input that is there already being disconnected. */
    method ChooseSlot(node: int, first: Routing) returns (slot: int)
      requires Valid() && |first.bits| == ROWS
      modifies this`current, slots, chip, chip.connected
      ensures Valid() && slot == SlotFor(old(slots[..]), node)
      ensures slots[..] == BeforeConfig(old(slots[..]), old(current), node)
      ensures slot < 0 ==> slots[..] == old(slots[..]) && chip.closed == old(chip.closed)
    {
      slot := FindInputSlot(node);
      if slot == -1 {
        slot := FindFreeInputSlot();
      } else {
        if current == slot { DisconnectAll(); }
        chip.ApplyChipXYState(first.bits);
      }
    }

    /** fakeGpioConfigInput: the slot, or -1 when the request is refused. `free` is a free ADC
        channel or -1, `first` the refresh of a reconfiguration, `second` the one with the new input. */
    method ConfigInput(node: int, high: real, low: real, free: int, first: Routing, second: Routing) returns (slot: int)
      requires Valid() && |first.bits| == ROWS == |second.bits| && -1 <= free < 4
      requires FirstPathRow(second.paths, node).Some? ==> -1 <= FirstPathRow(second.paths, node).value < ROWS
      modifies this`current, this`channel, slots, chip, chip.connected
      ensures Valid() && samples == old(samples) && lastRead == old(lastRead)
      ensures channel == if old(channel) >= 0 || !IsBreadboardNode(node) then old(channel) else free
      ensures slot == if IsBreadboardNode(node) && channel >= 0 then SlotFor(old(slots[..]), node) else -1
      ensures slot >= 0 <==>
                && 1 <= node <= 60 && channel >= 0
                && exists i :: 0 <= i < slots.Length && (!old(slots[..])[i].active || old(slots[..])[i].userNode == node)
      ensures slot >= 0 ==>
                && slots[slot].active && slots[slot].userNode == node && !slots[slot].connected && slots[slot].state == -1
                && slots[slot].thresholdHigh == high && slots[slot].thresholdLow == low
      ensures slot < 0 ==> slots[..] == old(slots[..]) && chip.closed == old(chip.closed)
      ensures slot >= 0 ==>
                var input := Configured(node, high, low, FirstPathRow(second.paths, node));
                && slots[..] == BeforeConfig(old(slots[..]), old(current), node)[slot := input]
                && (NoShort(RowsOf(second.bits)) ==>
                      Closed() == AdcRows(RowsOf(second.bits), AdcColumn(channel)) - {input.row})
    {
      if !IsBreadboardNode(node) { return -1; }
      if channel < 0 {
        channel := free;
        if channel < 0 { return -1; }
      }
      slot := ChooseSlot(node, first);
      if slot == -1 { return; }
      Configure(slot, node, high, low, second);
    }

    /** The chosen slot is filled and routed. */
    method Configure(slot: nat, node: int, high: real, low: real, answer: Routing)
      requires Valid() && slot < MAX_FAKE_GP_IN && channel >= 0 && |answer.bits| == ROWS
      requires FirstPathRow(answer.paths, node).Some? ==> -1 <= FirstPathRow(answer.paths, node).value < ROWS
      modifies slots, chip, chip.connected
      ensures Valid()
      ensures var input := Configured(node, high, low, FirstPathRow(answer.paths, node));
              && slots[..] == old(slots[..])[slot := input]
              && (NoShort(RowsOf(answer.bits)) ==>
                    Closed() == AdcRows(RowsOf(answer.bits), AdcColumn(channel)) - {input.row})
    {
      Fill(slot, Configured(node, high, low, None));
      Route(slot, answer);
    }

    method Fill(slot: nat, blank: Input)
      requires Valid() && slot < MAX_FAKE_GP_IN && InputFine(blank) && !blank.connected && (blank.active ==> channel >= 0)
      modifies slots
      ensures Valid() && slots[..] == old(slots[..])[slot := blank]
    {
      ghost var was := slots[..];
      ReplacedIsSound(was, current, slot, blank);
      slots[slot] := blank;
      assert slots[..] == was[slot := blank];
    }
  }
}
