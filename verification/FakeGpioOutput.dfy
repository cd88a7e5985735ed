/**
 Fake GPIO outputs: breadboard nodes that switch between two voltage sources on chip K, directly
 when the row is known and by a routing refresh when it is not.

 The router is its contract: it gives every output a row of its own with exactly the source for
 the output's state on it, keeps the rows that are cached, and its paths lead to those rows.
 */
module FakeGpioOutput {
  import opened Wrappers
  import opened Crosspoints
  import opened Router
  import opened Wiring

  const MAX_FAKE_GP_OUT: nat := 8

  datatype Output = Output(
    active: bool, userNode: int, highNode: int, lowNode: int, state: bool,
    row: int, highX: int, lowX: int, ready: bool)

  const UNUSED: Output := Output(false, -1, -1, -1, false, -1, -1, -1, false)

  datatype Pair = Pair(node: int, state: int)

  predicate IsVoltageSource(node: int) {
    node == TOP_RAIL || node == BOTTOM_RAIL || node == DAC0 || node == DAC1 || node == GND
  }

  function ColumnOf(node: int): int {
    if node == TOP_RAIL then 4
    else if node == BOTTOM_RAIL then 5
    else if node == DAC1 then 6
    else if node == DAC0 then 7
    else if node == GND then 15
    else -1
  }

  /** The column of a source is wired to it, and different sources have different ones, all guarded. */
  lemma ColumnsOfSources(a: int, b: int)
    ensures IsVoltageSource(a) <==> a in SUPPLIES
    ensures IsVoltageSource(a) ==> 0 <= ColumnOf(a) < COLUMNS && WireOf(ColumnOf(a)) == Node(a)
    ensures IsVoltageSource(a) <==> ColumnOf(a) in SOURCES
    ensures IsVoltageSource(a) && ColumnOf(a) == ColumnOf(b) ==> a == b
  {
  }

  // ---- slots ----

  type Slots = seq<Output>

  function Wanted(o: Output): int { if o.state then o.highX else o.lowX }

  predicate SlotFine(o: Output) {
    o.active ==>
      && IsVoltageSource(o.highNode) && IsVoltageSource(o.lowNode) && o.highNode != o.lowNode
      && o.highX == ColumnOf(o.highNode) && o.lowX == ColumnOf(o.lowNode)
      && (o.ready ==> 0 <= o.row < ROWS)
  }

  predicate Named(o: Output, node: int) { o.active && o.userNode == node }

  predicate Consistent(slots: Slots) {
    && (forall i :: 0 <= i < |slots| ==> SlotFine(slots[i]))
    && (forall i, j :: 0 <= i < j < |slots| && slots[i].active ==> !Named(slots[j], slots[i].userNode))
  }

  /** The first slot of a node, or -1. */
  function SlotOf(slots: Slots, node: int): (i: int)
    ensures -1 <= i < |slots|
    ensures i >= 0 ==> Named(slots[i], node)
    ensures forall j :: 0 <= j < |slots| && Named(slots[j], node) ==> 0 <= i <= j
  {
    IndexWhere(slots, (o: Output) => Named(o, node))
  }

  /** Writing one output: its state and nothing else. */
  function Apply(slots: Slots, node: int, on: bool): (r: Slots)
    ensures |r| == |slots|
  {
    var i := SlotOf(slots, node);
    if i < 0 then slots else slots[i := slots[i].(state := on)]
  }

  function ApplyAll(slots: Slots, pairs: seq<Pair>): (r: Slots)
    ensures |r| == |slots|
    decreases |pairs|
  {
    if pairs == [] then slots
    else Apply(ApplyAll(slots, Front(pairs)), Last(pairs).node, Last(pairs).state != 0)
  }

  /** A pair in a pass over the outputs that are ready, or over the others. */
  function PairApplied(slots: Slots, p: Pair, ready: bool): (r: Slots)
    ensures |r| == |slots|
  {
    var i := SlotOf(slots, p.node);
    if i >= 0 && slots[i].ready == ready then slots[i := slots[i].(state := p.state != 0)] else slots
  }

  /** One such pass of a batch. */
  function ApplyTo(slots: Slots, pairs: seq<Pair>, ready: bool): (r: Slots)
    ensures |r| == |slots|
    decreases |pairs|
  {
    if pairs == [] then slots else PairApplied(ApplyTo(slots, Front(pairs), ready), Last(pairs), ready)
  }

  /** Slots that differ in their states at most. */
  predicate SameBut(a: Slots, b: Slots) {
    |a| == |b| && forall i :: 0 <= i < |a| ==> b[i] == a[i].(state := b[i].state)
  }

  lemma {:induction false} SameSlot(a: Slots, b: Slots, node: int)
    requires SameBut(a, b)
    ensures SlotOf(a, node) == SlotOf(b, node)
  {
  }

  lemma {:induction false} AllIsSameBut(slots: Slots, pairs: seq<Pair>)
    ensures SameBut(slots, ApplyAll(slots, pairs))
    decreases |pairs|
  {
    if pairs != [] { AllIsSameBut(slots, Front(pairs)); }
  }

  lemma {:induction false} PassIsSameBut(slots: Slots, pairs: seq<Pair>, ready: bool)
    ensures SameBut(slots, ApplyTo(slots, pairs, ready))
    decreases |pairs|
  {
    if pairs != [] { PassIsSameBut(slots, Front(pairs), ready); }
  }

  /** A pass leaves a slot of its kind as the whole batch would, and any other as it was. */
  lemma {:induction false} PassAt(slots: Slots, pairs: seq<Pair>, ready: bool, i: int)
    requires 0 <= i < |slots|
    ensures ApplyTo(slots, pairs, ready)[i] == if slots[i].ready == ready then ApplyAll(slots, pairs)[i] else slots[i]
    decreases |pairs|
  {
    if pairs != [] {
      PassAt(slots, Front(pairs), ready, i);
      AllIsSameBut(slots, Front(pairs));
      PassIsSameBut(slots, Front(pairs), ready);
      SameSlot(slots, ApplyAll(slots, Front(pairs)), Last(pairs).node);
      SameSlot(slots, ApplyTo(slots, Front(pairs), ready), Last(pairs).node);
    }
  }

  /** What the batch leaves in a slot depends on that slot alone. */
  lemma {:induction false} AllAtIsLocal(a: Slots, b: Slots, pairs: seq<Pair>, i: int)
    requires SameBut(a, b) && 0 <= i < |a| && a[i] == b[i]
    ensures ApplyAll(a, pairs)[i] == ApplyAll(b, pairs)[i]
    decreases |pairs|
  {
    if pairs != [] {
      AllAtIsLocal(a, b, Front(pairs), i);
      AllIsSameBut(a, Front(pairs));
      AllIsSameBut(b, Front(pairs));
      SameSlot(a, ApplyAll(a, Front(pairs)), Last(pairs).node);
      SameSlot(b, ApplyAll(b, Front(pairs)), Last(pairs).node);
      SameSlot(a, b, Last(pairs).node);
    }
  }

  /** The two passes of a batch come to writing its pairs one by one, duplicates included. */
  lemma TwoPassesAreOneByOne(slots: Slots, pairs: seq<Pair>)
    ensures ApplyTo(ApplyTo(slots, pairs, true), pairs, false) == ApplyAll(slots, pairs)
  {
    var fast := ApplyTo(slots, pairs, true);
    PassIsSameBut(slots, pairs, true);
    forall i | 0 <= i < |slots| ensures ApplyTo(fast, pairs, false)[i] == ApplyAll(slots, pairs)[i] {
      PassAt(slots, pairs, true, i);
      PassAt(fast, pairs, false, i);
      if !slots[i].ready { AllAtIsLocal(slots, fast, pairs, i); }
    }
  }

  /** Whether a pair makes the batch take the slow path. */
  predicate IsSlow(slots: Slots, p: Pair) {
    var i := SlotOf(slots, p.node);
    i >= 0 && !slots[i].ready && slots[i].state != (p.state != 0)
  }

  predicate AnySlow(slots: Slots, pairs: seq<Pair>)
    decreases |pairs|
  {
    pairs != [] && (AnySlow(slots, Front(pairs)) || IsSlow(slots, Last(pairs)))
  }

  /** Without a slow pair the second pass would change nothing. */
  lemma {:induction false} NoneSlow(slots: Slots, pairs: seq<Pair>, i: int)
    requires 0 <= i < |slots| && !slots[i].ready && !AnySlow(slots, pairs)
    ensures ApplyAll(slots, pairs)[i] == slots[i]
    decreases |pairs|
  {
    if pairs != [] {
      NoneSlow(slots, Front(pairs), i);
      AllIsSameBut(slots, Front(pairs));
      SameSlot(slots, ApplyAll(slots, Front(pairs)), Last(pairs).node);
    }
  }

  /** How many pairs name an output, and how many of those the first pass counts. */
  function Known(slots: Slots, pairs: seq<Pair>): (n: nat)
    ensures n <= |pairs|
    decreases |pairs|
  {
    if pairs == [] then 0
    else Known(slots, Front(pairs)) + if SlotOf(slots, Last(pairs).node) >= 0 then 1 else 0
  }

  function Handled(slots: Slots, pairs: seq<Pair>): (n: nat)
    ensures n <= Known(slots, pairs)
    decreases |pairs|
  {
    if pairs == [] then 0
    else
      Handled(slots, Front(pairs)) +
      if SlotOf(slots, Last(pairs).node) >= 0 && !IsSlow(slots, Last(pairs)) then 1 else 0
  }

  /** What one more pair adds to a pass. */
  lemma OneMorePair(slots: Slots, pairs: seq<Pair>, k: nat, ready: bool)
    requires k < |pairs|
    ensures ApplyTo(slots, pairs[..k + 1], ready) == PairApplied(ApplyTo(slots, pairs[..k], ready), pairs[k], ready)
    ensures Known(slots, pairs[..k + 1]) == Known(slots, pairs[..k]) + if SlotOf(slots, pairs[k].node) >= 0 then 1 else 0
    ensures Handled(slots, pairs[..k + 1]) ==
              Handled(slots, pairs[..k]) + if SlotOf(slots, pairs[k].node) >= 0 && !IsSlow(slots, pairs[k]) then 1 else 0
    ensures AnySlow(slots, pairs[..k + 1]) <==> AnySlow(slots, pairs[..k]) || IsSlow(slots, pairs[k])
  {
    assert Front(pairs[..k + 1]) == pairs[..k] && Last(pairs[..k + 1]) == pairs[k];
  }

  /** The first pass changes nothing that decides how a later pair goes. */
  lemma PairGoesTheSame(slots: Slots, pairs: seq<Pair>, p: Pair)
    ensures SlotOf(slots, p.node) == SlotOf(ApplyTo(slots, pairs, true), p.node)
    ensures IsSlow(slots, p) <==> IsSlow(ApplyTo(slots, pairs, true), p)
  {
    PassIsSameBut(slots, pairs, true);
    SameSlot(slots, ApplyTo(slots, pairs, true), p.node);
    var i := SlotOf(slots, p.node);
    if i >= 0 { PassAt(slots, pairs, true, i); }
  }

  /** Whether a single write takes the slow path. */
  predicate NeedsRouter(slots: Slots, node: int, value: int) { IsSlow(slots, Pair(node, value)) }

  lemma FastPassIsAll(slots: Slots, pairs: seq<Pair>)
    requires !AnySlow(slots, pairs)
    ensures ApplyTo(slots, pairs, true) == ApplyAll(slots, pairs)
  {
    forall i | 0 <= i < |slots| ensures ApplyTo(slots, pairs, true)[i] == ApplyAll(slots, pairs)[i] {
      PassAt(slots, pairs, true, i);
      if !slots[i].ready { NoneSlow(slots, pairs, i); }
    }
  }

  /** What fakeGpioWriteBatch returns: with a slow pair, the handled ones are counted twice. */
  function Reported(slots: Slots, pairs: seq<Pair>): nat {
    Known(slots, pairs) + if AnySlow(slots, pairs) then Handled(slots, pairs) else 0
  }

  lemma {:induction false} HandledIsKnownUnlessSlow(slots: Slots, pairs: seq<Pair>)
    ensures AnySlow(slots, pairs) <==> Handled(slots, pairs) < Known(slots, pairs)
    decreases |pairs|
  {
    if pairs != [] {
      HandledIsKnownUnlessSlow(slots, Front(pairs));
    }
  }

  /** The return value is the number of writes exactly when the pairs all go the same way. */
  lemma ReportedIsRightIff(slots: Slots, pairs: seq<Pair>)
    ensures Reported(slots, pairs) == Known(slots, pairs) <==> !AnySlow(slots, pairs) || Handled(slots, pairs) == 0
  {
    HandledIsKnownUnlessSlow(slots, pairs);
  }

  // ---- rows ----

  /** Output o's row is y: it has exactly the source for the output's state. */
  predicate OnRow(o: Output, rows: Rows, y: int) {
    o.active ==>
      && -1 <= y < |rows|
      && (y >= 0 ==> rows[y] * SOURCES == {Wanted(o)})
      && (o.ready ==> y == o.row)
  }

  predicate Apart(slots: Slots, at: seq<int>)
    requires |slots| == |at|
  {
    forall i, j :: 0 <= i < j < |slots| && slots[i].active && slots[j].active && at[i] >= 0 ==> at[i] != at[j]
  }

  /** Every output has the row the router gave it (-1 without one) in its settled state. */
  predicate Settled(slots: Slots, rows: Rows, at: seq<int>) {
    && |slots| == |at| && |rows| == ROWS
    && (forall i :: 0 <= i < |slots| ==> OnRow(slots[i], rows, at[i]))
    && Apart(slots, at)
  }

  /** Each output's row is connected to one power supply: the high one's while the output is on, the
      low one's while it is off. */
  predicate Powered(slots: Slots, rows: Rows, at: seq<int>) {
    && |at| == |slots|
    && forall i :: 0 <= i < |slots| && slots[i].active && 0 <= at[i] < |rows| ==>
         SuppliesOn(rows[at[i]]) == {if slots[i].state then slots[i].highNode else slots[i].lowNode}
  }

  lemma SettledIsPowered(slots: Slots, rows: Rows, at: seq<int>)
    requires Consistent(slots) && Settled(slots, rows, at)
    ensures Powered(slots, rows, at)
  {
    forall i | 0 <= i < |slots| && slots[i].active && 0 <= at[i] < |rows|
      ensures SuppliesOn(rows[at[i]]) == {if slots[i].state then slots[i].highNode else slots[i].lowNode}
    {
      var o := slots[i];
      assert SlotFine(o) && OnRow(o, rows, at[i]);
      ColumnsOfSources(if o.state then o.highNode else o.lowNode, -1);
      OneColumnOneSupply(rows[at[i]], Wanted(o));
    }
  }

  /** What a search for output o's row comes back with is its row. */
  predicate SearchIsRight(o: Output, paths: seq<Path>, y: int) {
    o.active && FirstRow(paths, o.userNode).Some? ==> FirstRow(paths, o.userNode).value == y && y >= 0
  }

  predicate PathsLead(slots: Slots, paths: seq<Path>, at: seq<int>)
    requires |slots| == |at|
  {
    forall i :: 0 <= i < |slots| ==> SearchIsRight(slots[i], paths, at[i])
  }

  /** The router's contract. */
  predicate Routed(slots: Slots, r: Routing, at: seq<int>) {
    && |r.bits| == ROWS && NoShort(RowsOf(r.bits)) && Settled(slots, RowsOf(r.bits), at)
    && PathsLead(slots, r.paths, at)
  }

  /** Where the fast path is taken it leaves on the row what a refresh would. */
  lemma FastAgreesWithRouter(slots: Slots, rows: Rows, at: seq<int>, r: Routing, routed: seq<int>, i: int)
    requires Consistent(slots) && Settled(slots, rows, at) && Routed(slots, r, routed)
    requires 0 <= i < |slots| && slots[i].active && slots[i].ready
    ensures 0 <= slots[i].row < ROWS && rows[slots[i].row] * SOURCES == RowsOf(r.bits)[slots[i].row] * SOURCES
  {
    assert SlotFine(slots[i]) && OnRow(slots[i], rows, at[i]) && OnRow(slots[i], RowsOf(r.bits), routed[i]);
  }

  /** A row after the fast switch: one source leaves, then the other joins. */
  function Opened(row: set<int>, oldX: int, newX: int): set<int> {
    if oldX >= 0 && oldX != newX then row - {oldX} else row
  }

  function Switched(row: set<int>, oldX: int, newX: int): set<int> {
    if newX >= 0 then Sent(Opened(row, oldX, newX), newX, true) else Opened(row, oldX, newX)
  }

  function OtherOf(o: Output, on: bool): int { if on then o.highX else o.lowX }

  lemma SwitchSettlesRow(o: Output, row: set<int>, on: bool)
    requires SlotFine(o) && o.active && row * SOURCES == {Wanted(o)} && o.state != on
    ensures Opened(row, Wanted(o), OtherOf(o, on)) * SOURCES == {}
    ensures Switched(row, Wanted(o), OtherOf(o, on)) * SOURCES == {OtherOf(o, on)}
  {
    ColumnsOfSources(o.highNode, o.lowNode);
    ColumnsOfSources(o.lowNode, o.highNode);
    var x := OtherOf(o, on);
    assert Wanted(o) != x && x in SOURCES;
    assert Opened(row, Wanted(o), x) == row - {Wanted(o)};
    assert (row - {Wanted(o)}) * SOURCES == row * SOURCES - {Wanted(o)};
    assert Switched(row, Wanted(o), x) == row - {Wanted(o)} - SOURCES + {x};
  }

  lemma SwitchSettles(slots: Slots, rows: Rows, at: seq<int>, i: int, on: bool)
    requires Consistent(slots) && Settled(slots, rows, at)
    requires 0 <= i < |slots| && slots[i].active && slots[i].ready && slots[i].state != on
    ensures var o := slots[i];
            Settled(slots[i := o.(state := on)],
                    rows[o.row := Switched(rows[o.row], Wanted(o), OtherOf(o, on))], at)
  {
    var o := slots[i];
    assert OnRow(o, rows, at[i]) && SlotFine(o);
    SwitchSettlesRow(o, rows[o.row], on);
    var slots', rows' := slots[i := o.(state := on)], rows[o.row := Switched(rows[o.row], Wanted(o), OtherOf(o, on))];
    forall j | 0 <= j < |slots| ensures OnRow(slots'[j], rows', at[j]) {
      assert OnRow(slots[j], rows, at[j]);
      if j != i && slots[j].active && at[j] >= 0 { assert at[j] != o.row; }
    }
  }

  lemma OneSlotWritten(slots: Slots, node: int, i: int, on: bool)
    requires i == SlotOf(slots, node) && 0 <= i && Consistent(slots)
    ensures Apply(slots, node, on) == slots[i := slots[i].(state := on)] && Consistent(Apply(slots, node, on))
  {
    var r := slots[i := slots[i].(state := on)];
    assert forall j :: 0 <= j < |slots| ==> SlotFine(slots[j]) ==> SlotFine(r[j]);
  }

  /** The first free slot, or -1. */
  function FreeSlot(slots: Slots): (i: int)
    ensures -1 <= i < |slots|
    ensures i >= 0 ==> !slots[i].active
    ensures forall j :: 0 <= j < |slots| && !slots[j].active ==> 0 <= i <= j
  {
    IndexWhere(slots, (o: Output) => !o.active)
  }

  /** The slot a node is configured in. */
  function SlotFor(slots: Slots, node: int): (i: int)
    ensures -1 <= i < |slots|
  {
    if SlotOf(slots, node) >= 0 then SlotOf(slots, node) else FreeSlot(slots)
  }

  function Configured(slots: Slots, node: int, high: int, low: int): Slots {
    var i := SlotFor(slots, node);
    if i < 0 then slots
    else slots[i := Output(true, node, high, low, false, -1, ColumnOf(high), ColumnOf(low), false)]
  }

  predicate Acceptable(node: int, high: int, low: int) {
    IsBreadboardNode(node) && IsVoltageSource(high) && IsVoltageSource(low) && high != low
  }

  function Removed(slots: Slots, node: int): Slots {
    var i := SlotOf(slots, node);
    if i < 0 then slots else slots[i := UNUSED]
  }

  lemma RemovedConsistent(slots: Slots, node: int)
    requires Consistent(slots)
    ensures Consistent(Removed(slots, node))
  {
    var r := Removed(slots, node);
    forall i | 0 <= i < |r| ensures SlotFine(r[i]) { if i != SlotOf(slots, node) { assert SlotFine(slots[i]); } }
  }

  lemma ConfiguredConsistent(slots: Slots, node: int, high: int, low: int)
    requires Consistent(slots) && IsVoltageSource(high) && IsVoltageSource(low) && high != low
    ensures Consistent(Configured(slots, node, high, low))
  {
    ColumnsOfSources(high, low);
    var r := Configured(slots, node, high, low);
    forall i | 0 <= i < |r| ensures SlotFine(r[i]) { if i != SlotFor(slots, node) { assert SlotFine(slots[i]); } }
  }

  lemma SameButConsistent(a: Slots, b: Slots)
    requires SameBut(a, b) && Consistent(a)
    ensures Consistent(b)
  {
    forall i | 0 <= i < |b| ensures SlotFine(b[i]) { assert SlotFine(a[i]); }
  }

  /** Slots after rows have been cached: nothing else changes, and what was cached stays. */
  predicate Refines(a: Slots, b: Slots) {
    |a| == |b| && forall i :: 0 <= i < |a| ==>
      b[i] == a[i].(row := b[i].row, ready := b[i].ready) && (a[i].ready ==> b[i] == a[i])
  }

  lemma {:induction false} RefinedSlot(a: Slots, b: Slots, node: int)
    requires Refines(a, b)
    ensures SlotOf(a, node) == SlotOf(b, node)
  {
  }

  lemma {:induction false} KnownStays(a: Slots, b: Slots, pairs: seq<Pair>)
    requires SameBut(a, b)
    ensures Known(a, pairs) == Known(b, pairs)
    decreases |pairs|
  {
    if pairs != [] {
      KnownStays(a, b, Front(pairs));
      SameSlot(a, b, Last(pairs).node);
    }
  }

  /** An output after a search for its row. */
  function Cached(o: Output, found: Option<int>): Output {
    if o.ready || found.None? then o else o.(row := found.value, ready := true)
  }

  /** Caching a row keeps the outputs settled exactly when it is the router's: a second path of the
      node over another row would send the output's source there. */
  lemma CachedSettledIff(slots: Slots, rows: Rows, at: seq<int>, i: nat, found: Option<int>)
    requires Consistent(slots) && Settled(slots, rows, at) && i < |slots| && slots[i].active
    ensures var after := slots[i := Cached(slots[i], found)];
            Consistent(after) && Settled(after, rows, at) <==>
              slots[i].ready || (found.Some? ==> found.value == at[i] && at[i] >= 0)
    ensures slots[i].ready || found.None? ==> slots[i := Cached(slots[i], found)] == slots
  {
    var after := slots[i := Cached(slots[i], found)];
    assert SlotFine(slots[i]) && OnRow(slots[i], rows, at[i]);
    assert forall j :: 0 <= j < |slots| && j != i ==> after[j] == slots[j];
    if slots[i].ready || (found.Some? ==> found.value == at[i] && at[i] >= 0) {
      forall j | 0 <= j < |after| ensures SlotFine(after[j]) && OnRow(after[j], rows, at[j]) {
        if j != i { assert SlotFine(slots[j]) && OnRow(slots[j], rows, at[j]); }
      }
    } else {
      assert !SlotFine(after[i]) || !OnRow(after[i], rows, at[i]);
    }
  }

  lemma PathsStillLead(a: Slots, b: Slots, paths: seq<Path>, at: seq<int>)
    requires |a| == |at| && Refines(a, b) && PathsLead(a, paths, at)
    ensures PathsLead(b, paths, at)
  {
    forall i | 0 <= i < |b| ensures SearchIsRight(b[i], paths, at[i]) { assert SearchIsRight(a[i], paths, at[i]); }
  }

  lemma RefinesTwice(a: Slots, b: Slots, c: Slots)
    requires Refines(a, b) && Refines(b, c)
    ensures Refines(a, c)
  {
  }

  lemma CachedRefines(slots: Slots, i: nat, found: Option<int>)
    requires i < |slots|
    ensures Refines(slots, slots[i := Cached(slots[i], found)])
  {
  }

  // ---- the outputs ----

  class Outputs {
    const slots: array<Output>
    const chip: ChipK
    /** The row the router gave each output. */
    ghost var at: seq<int>

    ghost predicate Valid()
      reads this, slots, chip, chip.connected
    {
      && slots.Length == MAX_FAKE_GP_OUT && (slots as object) != chip.connected && chip.Valid()
      && Consistent(slots[..]) && Settled(slots[..], chip.closed, at)
    }

    constructor (chip: ChipK)
      requires chip.Valid()
      ensures Valid() && this.chip == chip && fresh(slots)
      ensures forall i :: 0 <= i < slots.Length ==> slots[i] == UNUSED
    {
      slots := new Output[MAX_FAKE_GP_OUT](_ => UNUSED);
      this.chip := chip;
      at := seq(MAX_FAKE_GP_OUT, _ => -1);
    }

    method FindOutputSlot(node: int) returns (i: int)
      ensures i == SlotOf(slots[..], node)
    {
      for k := 0 to slots.Length
        invariant forall j :: 0 <= j < k ==> !Named(slots[j], node)
      {
        if slots[k].active && slots[k].userNode == node {
          assert Named(slots[..][k], node);
          return k;
        }
      }
      return -1;
    }

    method FindFreeOutputSlot() returns (i: int)
      ensures i == FreeSlot(slots[..])
    {
      for k := 0 to slots.Length
        invariant forall j :: 0 <= j < k ==> slots[j].active
      {
        if !slots[k].active {
          assert !slots[..][k].active;
          return k;
        }
      }
      return -1;
    }

    /** Break before make. */
    method FastSwitchChipK(oldX: int, newX: int, y: int)
      requires chip.Valid() && 0 <= y < ROWS && oldX < COLUMNS && newX < COLUMNS
      modifies chip, chip.connected
      ensures chip.Valid()
      ensures chip.closed == old(chip.closed)[y := Switched(old(chip.closed)[y], oldX, newX)]
      ensures chip.Extends(old(chip.moments))
      ensures oldX >= 0 && newX >= 0 && oldX != newX && (old(chip.closed)[y] - {oldX}) * SOURCES <= {newX} ==>
                chip.moments == old(chip.moments) +
                  [old(chip.closed)[y := old(chip.closed)[y] - {oldX}], chip.closed]
    {
      if oldX >= 0 && oldX != newX {
        chip.SendXYraw(oldX, y, false);
      }
      if newX >= 0 {
        chip.SendXYraw(newX, y, true);
      }
    }

    /** The fast path of a write: the output's row goes from its source, over none, to the other one. */
    method SwitchFast(i: nat, on: bool)
      requires Valid() && i < slots.Length && slots[i].active && slots[i].ready && slots[i].state != on
      modifies chip, chip.connected, slots
      ensures Valid() && slots[..] == old(slots[..])[i := old(slots[i]).(state := on)]
      ensures exists middle: Rows ::
                && chip.moments == old(chip.moments) + [middle, chip.closed]
                && |middle| == ROWS && 0 <= old(slots[i]).row < ROWS
                && middle == old(chip.closed)[old(slots[i]).row := middle[old(slots[i]).row]]
                && middle[old(slots[i]).row] * SOURCES == {}
    {
      var o := slots[i];
      ghost var was, rows := slots[..], chip.closed;
      assert SlotFine(was[i]) && OnRow(was[i], rows, at[i]);
      SwitchSettlesRow(o, rows[o.row], on);
      SwitchSettles(was, rows, at, i, on);
      var oldX, newX := if o.state then o.highX else o.lowX, if on then o.highX else o.lowX;
      FastSwitchChipK(oldX, newX, o.row);
      slots[i] := o.(state := on);
      assert slots[..] == was[i := o.(state := on)];
      SameButConsistent(was, slots[..]);
    }

    /** The router runs and sends chip K its new switches. */
    method Refresh(answer: Routing, ghost where: seq<int>)
      requires slots.Length == MAX_FAKE_GP_OUT && (slots as object) != chip.connected && chip.Valid()
      requires Consistent(slots[..]) && Routed(slots[..], answer, where)
      modifies this`at, chip, chip.connected
      ensures Valid() && at == where && chip.Extends(old(chip.moments))
    {
      chip.ApplyChipXYState(answer.bits);
      at := where;
    }

    /** After a refresh: cache the row that the search finds. Everything stays settled exactly when
        that is the output's row. */
    method EnableFast(i: nat, paths: seq<Path>)
      requires Valid() && i < slots.Length && slots[i].active
      modifies slots
      ensures slots[..] == old(slots[..])[i := Cached(old(slots[i]), FirstRow(paths, old(slots[i]).userNode))]
      ensures Valid() <==> old(slots[i]).ready || SearchIsRight(old(slots[i]), paths, at[i])
    {
      ghost var was := slots[..];
      var o := slots[i];
      assert SlotFine(was[i]) && OnRow(was[i], chip.closed, at[i]);
      ColumnsOfSources(o.highNode, o.lowNode);
      ColumnsOfSources(o.lowNode, o.highNode);
      if !o.ready && o.highX >= 0 && o.lowX >= 0 {
        var r := SearchPaths(paths, o.userNode);
        if r.Some? {
          slots[i] := o.(row := r.value, ready := true);
        }
      }
      ghost var r := FirstRow(paths, o.userNode);
      assert slots[..] == was[i := Cached(o, r)];
      CachedSettledIff(was, chip.closed, at, i, r);
    }

    /** fakeGpioWriteNew. The router's answer counts only when the slow path asks for it. */
    method WriteNew(node: int, value: int, answer: Routing, ghost where: seq<int>) returns (ok: bool)
      requires Valid()
      requires NeedsRouter(slots[..], node, value) ==> Routed(Apply(slots[..], node, value != 0), answer, where)
      modifies this`at, slots, chip, chip.connected
      ensures Valid() && chip.Extends(old(chip.moments))
      ensures Powered(slots[..], chip.closed, at)
      ensures ok <==> SlotOf(old(slots[..]), node) >= 0
      // the output is what was written, and its row has the supply for that
      ensures ok ==> var i := SlotOf(old(slots[..]), node);
                     && |at| == slots.Length && slots[i].active && slots[i].state == (value != 0)
                     && (0 <= at[i] < |chip.closed| ==>
                           SuppliesOn(chip.closed[at[i]]) == {if value != 0 then slots[i].highNode else slots[i].lowNode})
      ensures Refines(Apply(old(slots[..]), node, value != 0), slots[..])
    {
      ghost var i := SlotOf(slots[..], node);
      ok := WriteState(node, value, answer, where);
      assert i >= 0 ==> slots[i] == slots[..][i];
      SettledIsPowered(slots[..], chip.closed, at);
    }

    method WriteState(node: int, value: int, answer: Routing, ghost where: seq<int>) returns (ok: bool)
      requires Valid()
      requires NeedsRouter(slots[..], node, value) ==> Routed(Apply(slots[..], node, value != 0), answer, where)
      modifies this`at, slots, chip, chip.connected
      ensures Valid() && chip.Extends(old(chip.moments))
      ensures ok <==> SlotOf(old(slots[..]), node) >= 0
      ensures Refines(Apply(old(slots[..]), node, value != 0), slots[..])
    {
      var i := FindOutputSlot(node);
      if i == -1 { return false; }
      var on := value != 0;
      OneSlotWritten(slots[..], node, i, on);
      if slots[i].state == on {
        assert slots[..][i := slots[i].(state := on)] == slots[..];
        return true;
      }
      if slots[i].ready {
        SwitchFast(i, on);
        return true;
      }
      Reroute(i, slots[i].(state := on), answer, where);
      CachedRefines(slots[..], i, FirstRow(answer.paths, slots[i].userNode));
      assert SearchIsRight(slots[..][i], answer.paths, at[i]);
      EnableFast(i, answer.paths);
      return true;
    }

    /** A slot changes, and the router runs. */
    method Reroute(i: nat, o: Output, answer: Routing, ghost where: seq<int>)
      requires Valid() && i < slots.Length
      requires Consistent(slots[..][i := o]) && Routed(slots[..][i := o], answer, where)
      modifies this`at, slots, chip, chip.connected
      ensures Valid() && slots[..] == old(slots[..])[i := o] && at == where && chip.Extends(old(chip.moments))
    {
      ghost var was := slots[..];
      slots[i] := o;
      assert slots[..] == was[i := o];
      Refresh(answer, where);
    }

    /** The first pass of a batch. */
    method FastPass(pairs: seq<Pair>) returns (success: nat, anySlow: bool)
      requires Valid()
      modifies slots, chip, chip.connected
      ensures Valid() && chip.Extends(old(chip.moments))
      ensures slots[..] == ApplyTo(old(slots[..]), pairs, true)
      ensures anySlow <==> AnySlow(old(slots[..]), pairs)
      ensures success == Handled(old(slots[..]), pairs)
    {
      success, anySlow := 0, false;
      ghost var was := slots[..];
      for k := 0 to |pairs|
        invariant Valid() && chip.Extends(old(chip.moments))
        invariant slots[..] == ApplyTo(was, pairs[..k], true)
        invariant anySlow <==> AnySlow(was, pairs[..k])
        invariant success == Handled(was, pairs[..k])
      {
        OneMorePair(was, pairs, k, true);
        PairGoesTheSame(was, pairs[..k], pairs[k]);
        ghost var before := chip.moments;
        var handled, slow := FastPair(pairs[k]);
        PrefixTwice(old(chip.moments), before, chip.moments);
        if handled { success := success + 1; }
        if slow { anySlow := true; }
      }
      assert pairs[..|pairs|] == pairs;
    }

    method FastPair(p: Pair) returns (handled: bool, slow: bool)
      requires Valid()
      modifies slots, chip, chip.connected
      ensures Valid() && chip.Extends(old(chip.moments))
      ensures slots[..] == PairApplied(old(slots[..]), p, true)
      ensures slow <==> IsSlow(old(slots[..]), p)
      ensures handled <==> SlotOf(old(slots[..]), p.node) >= 0 && !slow
    {
      var i := FindOutputSlot(p.node);
      if i == -1 { return false, false; }
      var on := p.state != 0;
      if slots[i].state == on {
        assert slots[..][i := slots[i].(state := on)] == slots[..];
        return true, false;
      }
      if slots[i].ready {
        SwitchFast(i, on);
        return true, false;
      }
      return false, true;
    }

    /** The second pass: only the states change, until the refresh that follows. */
    method SlowPass(pairs: seq<Pair>)
      requires Consistent(slots[..]) && (slots as object) != chip.connected
      modifies slots
      ensures slots[..] == ApplyTo(old(slots[..]), pairs, false) && Consistent(slots[..])
    {
      ghost var was := slots[..];
      for k := 0 to |pairs|
        invariant slots[..] == ApplyTo(was, pairs[..k], false)
      {
        assert Front(pairs[..k + 1]) == pairs[..k] && Last(pairs[..k + 1]) == pairs[k];
        ghost var now := slots[..];
        var i := FindOutputSlot(pairs[k].node);
        if i != -1 && !slots[i].ready && slots[i].state != (pairs[k].state != 0) {
          slots[i] := slots[i].(state := pairs[k].state != 0);
        }
        assert slots[..] == PairApplied(now, pairs[k], false);
      }
      assert pairs[..|pairs|] == pairs;
      PassIsSameBut(was, pairs, false);
      SameButConsistent(was, slots[..]);
    }

    /** One output of a batch after its refresh. */
    method EnableOne(i: nat, paths: seq<Path>, ghost was: Slots)
      requires Valid() && i < slots.Length && slots[i].active
      requires |was| == |at| && Refines(was, slots[..]) && PathsLead(was, paths, at)
      modifies slots
      ensures Valid() && Refines(was, slots[..])
    {
      PathsStillLead(was, slots[..], paths, at);
      CachedRefines(slots[..], i, FirstRow(paths, slots[i].userNode));
      RefinesTwice(was, slots[..], slots[..][i := Cached(slots[i], FirstRow(paths, slots[i].userNode))]);
      assert SearchIsRight(slots[..][i], paths, at[i]);
      EnableFast(i, paths);
    }

    /** After the refresh of a batch: the rows of its outputs. */
    method EnablePass(pairs: seq<Pair>, paths: seq<Path>) returns (known: nat)
      requires Valid() && PathsLead(slots[..], paths, at)
      modifies slots
      ensures Valid() && Refines(old(slots[..]), slots[..])
      ensures known == Known(old(slots[..]), pairs)
    {
      known := 0;
      ghost var was := slots[..];
      for k := 0 to |pairs|
        invariant Valid() && Refines(was, slots[..])
        invariant known == Known(was, pairs[..k])
      {
        OneMorePair(was, pairs, k, true);
        RefinedSlot(was, slots[..], pairs[k].node);
        var i := FindOutputSlot(pairs[k].node);
        if i != -1 {
          EnableOne(i, paths, was);
          known := known + 1;
        }
      }
      assert pairs[..|pairs|] == pairs;
    }

    /** fakeGpioWriteBatch. */
    method WriteBatch(pairs: seq<Pair>, answer: Routing, ghost where: seq<int>) returns (success: nat)
      requires Valid()
      requires AnySlow(slots[..], pairs) ==> Routed(ApplyAll(slots[..], pairs), answer, where)
      modifies this`at, slots, chip, chip.connected
      ensures Valid() && chip.Extends(old(chip.moments))
      ensures Powered(slots[..], chip.closed, at)
      ensures Refines(ApplyAll(old(slots[..]), pairs), slots[..])
      ensures success == Reported(old(slots[..]), pairs)
      ensures success == Known(old(slots[..]), pairs)
                         + if AnySlow(old(slots[..]), pairs) then Handled(old(slots[..]), pairs) else 0
    {
      success := WritePairs(pairs, answer, where);
      SettledIsPowered(slots[..], chip.closed, at);
    }

    method WritePairs(pairs: seq<Pair>, answer: Routing, ghost where: seq<int>) returns (success: nat)
      requires Valid()
      requires AnySlow(slots[..], pairs) ==> Routed(ApplyAll(slots[..], pairs), answer, where)
      modifies this`at, slots, chip, chip.connected
      ensures Valid() && chip.Extends(old(chip.moments))
      ensures Refines(ApplyAll(old(slots[..]), pairs), slots[..])
      ensures success == Reported(old(slots[..]), pairs)
    {
      ghost var was := slots[..];
      var anySlow;
      success, anySlow := FastPass(pairs);
      HandledIsKnownUnlessSlow(was, pairs);
      if !anySlow {
        FastPassIsAll(was, pairs);
        return;
      }
      var known := SlowRest(pairs, answer, where, was);
      success := success + known;
    }

    /** What is left of a batch with a slow pair: the second pass, one refresh, and the search for rows. */
    method SlowRest(pairs: seq<Pair>, answer: Routing, ghost where: seq<int>, ghost was: Slots) returns (known: nat)
      requires Valid() && slots[..] == ApplyTo(was, pairs, true) && Routed(ApplyAll(was, pairs), answer, where)
      modifies this`at, slots, chip, chip.connected
      ensures Valid() && chip.Extends(old(chip.moments))
      ensures Refines(ApplyAll(was, pairs), slots[..]) && known == Known(was, pairs)
    {
      SlowPass(pairs);
      TwoPassesAreOneByOne(was, pairs);
      Refresh(answer, where);
      AllIsSameBut(was, pairs);
      KnownStays(was, slots[..], pairs);
      known := EnablePass(pairs, answer.paths);
    }

    /** fakeGpioConfigOutput: the slot, or -1 when the request is refused. */
    method ConfigOutput(node: int, highNode: int, lowNode: int, answer: Routing, ghost where: seq<int>) returns (slot: int)
      requires Valid()
      requires Acceptable(node, highNode, lowNode) && SlotFor(slots[..], node) >= 0 ==>
                 Routed(Configured(slots[..], node, highNode, lowNode), answer, where)
      modifies this`at, slots, chip, chip.connected
      ensures Valid() && chip.Extends(old(chip.moments))
      ensures Powered(slots[..], chip.closed, at)
      ensures slot == if Acceptable(node, highNode, lowNode) then SlotFor(old(slots[..]), node) else -1
      ensures slot < 0 ==> slots[..] == old(slots[..])
      ensures slot >= 0 ==> Refines(Configured(old(slots[..]), node, highNode, lowNode), slots[..])
      // accepted is a breadboard node with two different supplies, if it has a slot or one is free
      ensures slot >= 0 <==>
                && 1 <= node <= 60 && highNode in SUPPLIES && lowNode in SUPPLIES && highNode != lowNode
                && exists i :: 0 <= i < slots.Length && (!old(slots[..])[i].active || old(slots[..])[i].userNode == node)
      // it starts low, with its row on the low supply
      ensures slot >= 0 ==>
                && |at| == slots.Length && slots[slot].active && slots[slot].userNode == node
                && slots[slot].highNode == highNode && slots[slot].lowNode == lowNode && !slots[slot].state
                && (0 <= at[slot] < |chip.closed| ==> SuppliesOn(chip.closed[at[slot]]) == {lowNode})
    {
      slot := Configure(node, highNode, lowNode, answer, where);
      assert slot >= 0 ==> slots[slot] == slots[..][slot];
      SettledIsPowered(slots[..], chip.closed, at);
    }

    method Configure(node: int, highNode: int, lowNode: int, answer: Routing, ghost where: seq<int>) returns (slot: int)
      requires Valid()
      requires Acceptable(node, highNode, lowNode) && SlotFor(slots[..], node) >= 0 ==>
                 Routed(Configured(slots[..], node, highNode, lowNode), answer, where)
      modifies this`at, slots, chip, chip.connected
      ensures Valid() && chip.Extends(old(chip.moments))
      ensures slot == if Acceptable(node, highNode, lowNode) then SlotFor(old(slots[..]), node) else -1
      ensures slot < 0 ==> slots[..] == old(slots[..])
      ensures slot >= 0 ==> Refines(Configured(old(slots[..]), node, highNode, lowNode), slots[..])
    {
      if !IsBreadboardNode(node) || !IsVoltageSource(highNode) || !IsVoltageSource(lowNode) || highNode == lowNode {
        return -1;
      }
      slot := FindOutputSlot(node);
      if slot == -1 { slot := FindFreeOutputSlot(); }
      if slot == -1 { return; }
      ConfiguredConsistent(slots[..], node, highNode, lowNode);
      Reroute(slot, Output(true, node, highNode, lowNode, false, -1, ColumnOf(highNode), ColumnOf(lowNode), false),
              answer, where);
      CachedRefines(slots[..], slot, FirstPathRow(answer.paths, node));
      assert SearchIsRight(slots[..][slot], answer.paths, at[slot]);
      EnableFirst(slot, answer.paths);
    }

    /** The same for a configuration call, whose search ends at the node's first path. */
    method EnableFirst(i: nat, paths: seq<Path>)
      requires Valid() && i < slots.Length && slots[i].active && !slots[i].ready && slots[i].row == -1
      requires SearchIsRight(slots[i], paths, at[i])
      modifies slots
      ensures slots[..] == old(slots[..])[i := Cached(old(slots[i]), FirstPathRow(paths, old(slots[i]).userNode))]
      ensures Valid()
    {
      ghost var was := slots[..];
      var o := slots[i];
      assert SlotFine(was[i]) && OnRow(was[i], chip.closed, at[i]);
      SearchesAgree(paths, o.userNode);
      var r := SearchFirstPath(paths, o.userNode);
      if r.Some? {
        slots[i] := o.(row := r.value);
        if r.value >= 0 && o.highX >= 0 && o.lowX >= 0 {
          slots[i] := slots[i].(ready := true);
        }
      }
      ColumnsOfSources(o.highNode, o.lowNode);
      ColumnsOfSources(o.lowNode, o.highNode);
      assert slots[..] == was[i := Cached(o, r)];
      CachedSettledIff(was, chip.closed, at, i, r);
    }

    /** fakeGpioRemoveOutput: the refresh comes first, without the removed output. */
    method RemoveOutput(node: int, answer: Routing, ghost where: seq<int>) returns (ok: bool)
      requires Valid() && (SlotOf(slots[..], node) >= 0 ==> Routed(Removed(slots[..], node), answer, where))
      modifies this`at, slots, chip, chip.connected
      ensures Valid() && chip.Extends(old(chip.moments))
      ensures Powered(slots[..], chip.closed, at)
      ensures ok <==> SlotOf(old(slots[..]), node) >= 0
      ensures slots[..] == Removed(old(slots[..]), node)
    {
      ok := Remove(node, answer, where);
      SettledIsPowered(slots[..], chip.closed, at);
    }

    method Remove(node: int, answer: Routing, ghost where: seq<int>) returns (ok: bool)
      requires Valid() && (SlotOf(slots[..], node) >= 0 ==> Routed(Removed(slots[..], node), answer, where))
      modifies this`at, slots, chip, chip.connected
      ensures Valid() && chip.Extends(old(chip.moments))
      ensures ok <==> SlotOf(old(slots[..]), node) >= 0
      ensures slots[..] == Removed(old(slots[..]), node)
    {
      var i := FindOutputSlot(node);
      if i == -1 { return false; }
      RemovedConsistent(slots[..], node);
      chip.ApplyChipXYState(answer.bits);
      at := where;
      slots[i] := UNUSED;
      assert slots[..] == Removed(old(slots[..]), node);
      return true;
    }
  }
}
