/**
 Chip K's crosspoints, 16 columns by 8 rows: the bit field the firmware keeps of them, the
 command that switches one, and the protection that keeps two voltage sources off a row.
 */
module Crosspoints {

  /** The closed columns of each row. */
  type Rows = seq<set<int>>

  const ROWS: nat := 8
  const COLUMNS: nat := 16

  /** The columns of the voltage sources: rails, DACs and ground. */
  const SOURCES: set<int> := {4, 5, 6, 7, 15}
  const SOURCE_BITS: bv16 := 0x80F0

  // ---- the bit field ----

  predicate OnChip(x: int, y: int) { 0 <= x < COLUMNS && 0 <= y < ROWS }

  function Mask(x: int): bv16
    requires 0 <= x < COLUMNS
  {
    1 << x
  }

  predicate Closed(row: bv16, x: int)
    requires 0 <= x < COLUMNS
  {
    row & Mask(x) != 0
  }

  /** A row of the bit field as the set it stands for. */
  function Columns(row: bv16): set<int> {
    set x: int | 0 <= x < COLUMNS && Closed(row, x)
  }

  /** Masks of different columns share no bit. */
  lemma MasksAreApart(x: int, z: int)
    requires 0 <= x < COLUMNS && 0 <= z < COLUMNS
    ensures Mask(x) != 0
    ensures x != z ==> Mask(x) & Mask(z) == 0
  {
  }

  lemma OtherBit(row: bv16, m: bv16, z: bv16)
    requires m & z == 0
    ensures (row | m) & z == row & z
    ensures (row & !m) & z == row & z
  {
  }

  lemma SameBit(row: bv16, z: bv16)
    ensures (row | z) & z == z
    ensures (row & !z) & z == 0
  {
  }

  lemma ClosedAtSame(row: bv16, x: int)
    requires 0 <= x < COLUMNS
    ensures Closed(row | Mask(x), x) && !Closed(row & !Mask(x), x)
  {
    MasksAreApart(x, x);
    SameBit(row, Mask(x));
  }

  lemma OtherStaysOnSet(row: bv16, x: int, z: int)
    requires 0 <= x < COLUMNS && 0 <= z < COLUMNS && x != z
    ensures Closed(row | Mask(x), z) == Closed(row, z)
  {
    MasksAreApart(x, z);
    OtherBit(row, Mask(x), Mask(z));
  }

  lemma OtherStaysOnClear(row: bv16, x: int, z: int)
    requires 0 <= x < COLUMNS && 0 <= z < COLUMNS && x != z
    ensures Closed(row & !Mask(x), z) == Closed(row, z)
  {
    MasksAreApart(x, z);
    OtherBit(row, Mask(x), Mask(z));
  }

  lemma ClosedAfter(row: bv16, x: int, z: int)
    requires 0 <= x < COLUMNS && 0 <= z < COLUMNS
    ensures Closed(row | Mask(x), z) <==> Closed(row, z) || z == x
    ensures Closed(row & !Mask(x), z) <==> Closed(row, z) && z != x
  {
    if x == z {
      ClosedAtSame(row, x);
    } else {
      OtherStaysOnSet(row, x, z);
      OtherStaysOnClear(row, x, z);
    }
  }

  /** Setting and clearing a bit is adding and removing the column. */
  lemma ColumnsAfterSet(row: bv16, x: int, after: bv16)
    requires 0 <= x < COLUMNS && after == row | Mask(x)
    ensures Columns(after) == Columns(row) + {x}
  {
    forall z: int | 0 <= z < COLUMNS ensures z in Columns(after) <==> z in Columns(row) + {x} {
      ClosedAfter(row, x, z);
    }
  }

  lemma ColumnsAfterClear(row: bv16, x: int, after: bv16)
    requires 0 <= x < COLUMNS && after == row & !Mask(x)
    ensures Columns(after) == Columns(row) - {x}
  {
    forall z: int | 0 <= z < COLUMNS ensures z in Columns(after) <==> z in Columns(row) - {x} {
      ClosedAfter(row, x, z);
    }
  }

  function WithBit(row: bv16, x: int, on: bool): bv16
    requires 0 <= x < COLUMNS
  {
    if on then row | Mask(x) else row & !Mask(x)
  }

  lemma WithBitColumns(row: bv16, x: int, on: bool)
    requires 0 <= x < COLUMNS
    ensures Columns(WithBit(row, x, on)) == if on then Columns(row) + {x} else Columns(row) - {x}
  {
    if on { ColumnsAfterSet(row, x, WithBit(row, x, on)); } else { ColumnsAfterClear(row, x, WithBit(row, x, on)); }
  }

  lemma SourceBits(x: int)
    requires 0 <= x < COLUMNS
    ensures Mask(x) & SOURCE_BITS != 0 <==> x in SOURCES
    ensures SOURCE_BITS & Mask(x) == (if x in SOURCES then Mask(x) else 0)
  {
  }

  lemma ConflictBits(row: bv16, sources: bv16, m: bv16, z: bv16)
    ensures (row & (sources & !m)) & z == (row & !m) & (sources & z)
  {
  }

  lemma ConflictClosed(row: bv16, x: int, z: int)
    requires 0 <= x < COLUMNS && 0 <= z < COLUMNS
    ensures Closed(row & (SOURCE_BITS & !Mask(x)), z) <==> Closed(row, z) && z in SOURCES && z != x
  {
    ConflictBits(row, SOURCE_BITS, Mask(x), Mask(z));
    SourceBits(z);
    ClosedAfter(row, x, z);
  }

  /** The protection's mask picks the other voltage sources of the row. */
  lemma ConflictColumns(row: bv16, x: int, conflicting: bv16)
    requires 0 <= x < COLUMNS && conflicting == row & (SOURCE_BITS & !Mask(x))
    ensures Columns(conflicting) == Columns(row) * SOURCES - {x}
  {
    forall z: int | 0 <= z < COLUMNS ensures z in Columns(conflicting) <==> z in Columns(row) * SOURCES - {x} {
      ConflictClosed(row, x, z);
    }
  }

  function RowsOf(bits: seq<bv16>): (rows: Rows)
    ensures |rows| == |bits|
  {
    seq(|bits|, y requires 0 <= y < |bits| => Columns(bits[y]))
  }

  lemma RowsOfUpdate(bits: seq<bv16>, y: int, row: bv16)
    requires 0 <= y < |bits|
    ensures RowsOf(bits[y := row]) == RowsOf(bits)[y := Columns(row)]
  {
  }

  /** The columns up to k. */
  function Below(cols: set<int>, k: int): set<int> { set c | c in cols && c < k }

  /** The conflicting columns, x waiting in the bit field, and what is left of the row as they go. */
  lemma ConflictsWaiting(bits: seq<bv16>, rows: Rows, x: int, y: int, conflicting: bv16)
    requires OnChip(x, y) && |bits| == |rows| == ROWS && RowsOf(bits) == rows[y := rows[y] + {x}]
    requires conflicting == bits[y] & (SOURCE_BITS & !Mask(x))
    ensures var cols := Columns(conflicting);
            && cols == rows[y] * SOURCES - {x}
            && rows[y := rows[y] - Below(cols, 0)] == rows
            && rows[y] - Below(cols, COLUMNS) == rows[y] - (SOURCES - {x})
  {
    var cols := Columns(conflicting);
    ConflictColumns(bits[y], x, conflicting);
    assert Columns(bits[y]) == RowsOf(bits)[y] == rows[y] + {x};
    assert Below(cols, COLUMNS) == cols && Below(cols, 0) == {};
    assert rows[y] - {} == rows[y];
    assert rows[y := rows[y]] == rows;
  }

  // ---- the command ----

  /** At most one voltage source is on the row. */
  predicate OneSource(row: set<int>) {
    forall a, b :: a in row && b in row && a in SOURCES && b in SOURCES ==> a == b
  }

  predicate NoShort(rows: Rows) { forall y :: 0 <= y < |rows| ==> OneSource(rows[y]) }

  predicate AllSafe(moments: seq<Rows>) { forall k :: 0 <= k < |moments| ==> NoShort(moments[k]) }

  /** The row after a command: a voltage source takes the place of any other. */
  function Sent(row: set<int>, x: int, on: bool): set<int> {
    if !on then row - {x} else if x in SOURCES then row - SOURCES + {x} else row + {x}
  }

  /** The crosspoint that the address of a command off the chip names. */
  function OffChip(rows: Rows, x: int, y: int, on: bool): Rows
    requires |rows| == ROWS
  {
    var row, c := y % ROWS, x % COLUMNS;
    rows[row := if on then rows[row] + {c} else rows[row] - {c}]
  }

  /** Such a command shorts nothing exactly when it puts no source beside another one... */
  lemma OffChipIsSafeIff(rows: Rows, x: int, y: int, on: bool)
    requires |rows| == ROWS && NoShort(rows)
    ensures NoShort(OffChip(rows, x, y, on)) <==>
              !on || x % COLUMNS !in SOURCES || rows[y % ROWS] * SOURCES <= {x % COLUMNS}
  {
    var row, c, after := y % ROWS, x % COLUMNS, OffChip(rows, x, y, on);
    if on && c in SOURCES && !(rows[row] * SOURCES <= {c}) {
      var d :| d in rows[row] * SOURCES && d != c;
      assert d in after[row] && c in after[row] && !OneSource(after[row]);
    } else {
      assert OneSource(rows[row]);
      assert OneSource(after[row]);
    }
  }

  /** ...and leaves the bit field right exactly when the crosspoint was that way already. */
  lemma OffChipIsRecordedIff(rows: Rows, x: int, y: int, on: bool)
    requires |rows| == ROWS
    ensures OffChip(rows, x, y, on) == rows <==> (x % COLUMNS in rows[y % ROWS] <==> on)
  {
    var row, c, after := y % ROWS, x % COLUMNS, OffChip(rows, x, y, on);
    assert after == rows ==> after[row] == rows[row];
    if c in rows[row] <==> on { assert after[row] == rows[row]; }
  }

  lemma SentIs(row: set<int>, x: int)
    ensures Sent(row, x, true) == if x in SOURCES then row - (SOURCES - {x}) + {x} else row + {x}
  {
    assert row - (SOURCES - {x}) + {x} == row - SOURCES + {x};
  }

  lemma SentHasOneSource(row: set<int>, x: int, on: bool)
    requires OneSource(row)
    ensures OneSource(Sent(row, x, on))
  {
  }

  lemma FewerHasOneSource(row: set<int>, gone: set<int>)
    requires OneSource(row)
    ensures OneSource(row - gone)
  {
  }

  lemma NextColumn(row: set<int>, cols: set<int>, k: int)
    ensures row - Below(cols, k + 1) == if k in cols then row - Below(cols, k) - {k} else row - Below(cols, k)
  {
  }

  /** Column x of two rows. */
  method Compare(current: bv16, target: bv16, x: int) returns (differs: bool, wanted: bool)
    requires 0 <= x < COLUMNS
    ensures wanted <==> x in Columns(target)
    ensures differs <==> (x in Columns(current)) != (x in Columns(target))
  {
    DifferingBit(current, target, x);
    wanted := target & Mask(x) != 0;
    differs := (current ^ target) & Mask(x) != 0;
  }

  method IsSource(x: int) returns (yes: bool)
    requires 0 <= x < COLUMNS
    ensures yes <==> x in SOURCES
  {
    SourceBits(x);
    yes := Mask(x) & SOURCE_BITS != 0;
  }

  method Test(row: bv16, x: int) returns (on: bool)
    requires 0 <= x < COLUMNS
    ensures on <==> x in Columns(row)
  {
    on := row & Mask(x) != 0;
  }

  predicate IsPrefix(a: seq<Rows>, b: seq<Rows>) {
    |b| >= |a| && b[..|a|] == a
  }

  lemma PrefixTwice(a: seq<Rows>, b: seq<Rows>, c: seq<Rows>)
    requires IsPrefix(a, b) && IsPrefix(b, c)
    ensures IsPrefix(a, c)
  {
    assert a == c[..|b|][..|a|];
  }

  /** A row on its way from `start` to `target`, the columns below x done. Sources beyond x may
      have been put off early. */
  predicate Between(start: set<int>, row: set<int>, target: set<int>, x: int) {
    forall c :: 0 <= c < COLUMNS ==>
      if c < x then c in row <==> c in target
      else if c in SOURCES then (c in row ==> c in start) && (c in start && c in target ==> c in row)
      else c in row <==> c in start
  }

  /** What the firmware believes about chip K, and the chip. */
  class ChipK {
    const connected: array<bv16>
    ghost var closed: Rows
    /** The chip after every command so far. */
    ghost var moments: seq<Rows>

    ghost predicate Valid()
      reads this, connected
    {
      && connected.Length == ROWS && RowsOf(connected[..]) == closed
      && NoShort(closed) && AllSafe(moments)
    }

    ghost predicate Extends(before: seq<Rows>)
      reads this
    {
      IsPrefix(before, moments)
    }

    constructor ()
      ensures Valid() && fresh(connected) && moments == []
      ensures closed == seq(ROWS, _ => {})
    {
      connected := new bv16[ROWS](_ => 0);
      closed := seq(ROWS, _ => {});
      moments := [];
      new;
      assert forall y :: 0 <= y < ROWS ==> connected[..][y] == 0;
      NothingClosed();
      assert RowsOf(connected[..]) == closed;
    }

    method GetConnectionBit(x: int, y: int) returns (on: bool)
      requires Valid()
      ensures on <==> OnChip(x, y) && x in closed[y]
    {
      if x < 0 || x >= COLUMNS || y < 0 || y >= ROWS { return false; }
      assert closed[y] == Columns(connected[..][y]);
      return connected[y] & Mask(x) != 0;
    }

    method SetConnectionBit(x: int, y: int, on: bool)
      requires connected.Length == ROWS
      modifies connected
      ensures RowsOf(connected[..]) ==
                if !OnChip(x, y) then RowsOf(old(connected[..]))
                else var rows := RowsOf(old(connected[..]));
                     rows[y := if on then rows[y] + {x} else rows[y] - {x}]
    {
      if x < 0 || x >= COLUMNS || y < 0 || y >= ROWS { return; }
      ghost var before := connected[..];
      WithBitColumns(connected[y], x, on);
      RowsOfUpdate(before, y, WithBit(connected[y], x, on));
      connected[y] := WithBit(connected[y], x, on);
      assert connected[..] == before[y := connected[y]];
    }

    /** sendXYraw for a disconnection: the bit, then the chip. */
    method Disconnect(x: int, y: int)
      requires OnChip(x, y) && connected.Length == ROWS == |closed|
      modifies this, connected
      ensures RowsOf(connected[..]) == (var rows := RowsOf(old(connected[..])); rows[y := rows[y] - {x}])
      ensures closed == old(closed)[y := old(closed)[y] - {x}]
      ensures moments == old(moments) + [closed]
    {
      SetConnectionBit(x, y, false);
      closed := closed[y := closed[y] - {x}];
      moments := moments + [closed];
    }

    /** A conflicting column leaves while x waits to join. */
    method Shed(c: int, x: int, y: int)
      requires OnChip(c, y) && c != x && connected.Length == ROWS == |closed|
      requires RowsOf(connected[..]) == closed[y := closed[y] + {x}] && NoShort(closed) && AllSafe(moments)
      modifies this, connected
      ensures closed == old(closed)[y := old(closed)[y] - {c}] && NoShort(closed)
      ensures RowsOf(connected[..]) == closed[y := closed[y] + {x}]
      ensures moments == old(moments) + [closed] && AllSafe(moments)
    {
      FewerHasOneSource(closed[y], {c});
      assert closed[y] + {x} - {c} == closed[y] - {c} + {x};
      Disconnect(c, y);
    }

    /** The protection: other voltage sources leave the row before x joins it. */
    method ClearConflicts(x: int, y: int)
      requires OnChip(x, y) && connected.Length == ROWS == |closed|
      requires RowsOf(connected[..]) == closed[y := closed[y] + {x}] && NoShort(closed) && AllSafe(moments)
      modifies this, connected
      ensures closed == old(closed)[y := old(closed)[y] - (SOURCES - {x})]
      ensures RowsOf(connected[..]) == closed[y := closed[y] + {x}]
      ensures Extends(old(moments)) && AllSafe(moments)
      ensures old(closed)[y] * SOURCES <= {x} ==> moments == old(moments)
    {
      ghost var start := closed;
      var conflicting := connected[y] & (SOURCE_BITS & !Mask(x));
      ghost var cols := Columns(conflicting);
      ConflictsWaiting(connected[..], start, x, y, conflicting);
      for c := 0 to COLUMNS
        invariant connected.Length == ROWS == |closed|
        invariant closed == start[y := start[y] - Below(cols, c)] && NoShort(closed)
        invariant RowsOf(connected[..]) == closed[y := closed[y] + {x}]
        invariant Extends(old(moments)) && AllSafe(moments)
        invariant cols == {} ==> moments == old(moments)
      {
        NextColumn(start[y], cols, c);
        var closedThere := Test(conflicting, c);
        if closedThere {
          Shed(c, x, y);
        }
      }
    }

    /** One command, whoever sends it: on the chip it keeps everything in order. Off the chip it
        reaches the crosspoint its low bits name, unrecorded and unprotected. */
    method SendXYraw(x: int, y: int, on: bool)
      requires Valid()
      modifies this, connected
      ensures Extends(old(moments)) && |moments| > |old(moments)|
      ensures OnChip(x, y) ==> Valid() && closed == old(closed)[y := Sent(old(closed)[y], x, on)]
      ensures OnChip(x, y) && (!on || x !in SOURCES || old(closed)[y] * SOURCES <= {x}) ==>
                moments == old(moments) + [closed]
      ensures !OnChip(x, y) ==>
                connected[..] == old(connected[..]) && closed == OffChip(old(closed), x, y, on) && moments == old(moments) + [closed]
    {
      if x < 0 || x >= COLUMNS || y < 0 || y >= ROWS {
        closed := OffChip(closed, x, y, on);
        moments := moments + [closed];
      } else {
        SendOnChip(x, y, on);
      }
    }

    method SendOnChip(x: int, y: int, on: bool)
      requires Valid() && OnChip(x, y)
      modifies this, connected
      ensures Valid()
      ensures closed == old(closed)[y := Sent(old(closed)[y], x, on)]
      ensures |moments| > |old(moments)| && Extends(old(moments))
      ensures !on || x !in SOURCES || old(closed)[y] * SOURCES <= {x} ==> moments == old(moments) + [closed]
    {
      SentHasOneSource(closed[y], x, on);
      if !on {
        Disconnect(x, y);
      } else {
        Connect(x, y);
      }
    }

    /** A connection: the bit, the protection, and then the chip. */
    method Connect(x: int, y: int)
      requires Valid() && OnChip(x, y)
      modifies this, connected
      ensures Valid()
      ensures closed == old(closed)[y := Sent(old(closed)[y], x, true)]
      ensures |moments| > |old(moments)| && Extends(old(moments))
      ensures x !in SOURCES || old(closed)[y] * SOURCES <= {x} ==> moments == old(moments) + [closed]
    {
      SentHasOneSource(closed[y], x, true);
      SetConnectionBit(x, y, true);
      var source := IsSource(x);
      if source { ClearConflicts(x, y); }
      SentIs(old(closed)[y], x);
      Join(x, y);
    }

    /** The chip closes a crosspoint that the bit field has already. */
    ghost method Join(x: int, y: int)
      requires OnChip(x, y) && connected.Length == ROWS == |closed|
      requires RowsOf(connected[..]) == closed[y := closed[y] + {x}]
      requires NoShort(closed) && AllSafe(moments) && OneSource(closed[y] + {x})
      modifies this
      ensures Valid() && closed == old(closed)[y := old(closed)[y] + {x}] && moments == old(moments) + [closed]
    {
      closed := closed[y := closed[y] + {x}];
      moments := moments + [closed];
    }

    /** One column of a row that is to become `target`, sent when it differs from `current`. */
    method ApplyColumn(x: int, y: int, current: bv16, target: bv16)
      requires Valid() && OnChip(x, y)
      modifies this, connected
      ensures Valid() && |closed| == |old(closed)| && closed == old(closed)[y := closed[y]]
      ensures OneSource(Columns(target)) && Between(Columns(current), old(closed)[y], Columns(target), x) ==>
                Between(Columns(current), closed[y], Columns(target), x + 1)
      ensures Extends(old(moments))
    {
      var differs, wanted := Compare(current, target, x);
      if OneSource(Columns(target)) && Between(Columns(current), closed[y], Columns(target), x) {
        BetweenStep(Columns(current), closed[y], Columns(target), x);
      }
      if differs {
        SendXYraw(x, y, wanted);
      }
    }

    /** One row of a snapshot: only the columns that differ are sent. */
    method ApplyRow(y: int, target: bv16)
      requires Valid() && 0 <= y < ROWS
      modifies this, connected
      ensures Valid() && |closed| == |old(closed)| && closed == old(closed)[y := closed[y]]
      ensures closed[y] == Columns(target) <==> OneSource(Columns(target))
      ensures Extends(old(moments))
    {
      var current := connected[y];
      assert RowsOf(connected[..])[y] == Columns(current);
      for x := 0 to COLUMNS
        invariant Valid() && |closed| == |old(closed)| && closed == old(closed)[y := closed[y]]
        invariant OneSource(Columns(target)) ==> Between(Columns(current), closed[y], Columns(target), x)
        invariant Extends(old(moments))
      {
        ApplyColumn(x, y, current, target);
      }
      assert closed[y] == RowsOf(connected[..])[y];
      if OneSource(Columns(target)) { BetweenEnds(Columns(current), closed[y], Columns(target)); }
    }

    /** Chip K's part of applying a snapshot. */
    method ApplyChipXYState(target: seq<bv16>)
      requires Valid() && |target| == ROWS
      modifies this, connected
      ensures Valid() && Extends(old(moments))
      ensures closed == RowsOf(target) <==> NoShort(RowsOf(target))
    {
      for y := 0 to ROWS
        invariant Valid() && |closed| == ROWS && Extends(old(moments))
        invariant forall r :: 0 <= r < y ==> (closed[r] == Columns(target[r]) <==> OneSource(Columns(target[r])))
      {
        ApplyRow(y, target[y]);
      }
      if NoShort(RowsOf(target)) {
        forall y | 0 <= y < ROWS ensures closed[y] == RowsOf(target)[y] {
          assert OneSource(RowsOf(target)[y]);
        }
        assert closed == RowsOf(target);
      }
    }
  }

  lemma DifferingBit(current: bv16, target: bv16, x: int)
    requires 0 <= x < COLUMNS
    ensures Closed(current ^ target, x) <==> Closed(current, x) != Closed(target, x)
  {
    MaskIsOneBit(x);
    OneBitDiffers(current, target, Mask(x));
  }

  lemma MaskIsOneBit(x: int)
    requires 0 <= x < COLUMNS
    ensures Mask(x) != 0 && Mask(x) & (Mask(x) - 1) == 0
  {
  }

  lemma OneBitDiffers(a: bv16, b: bv16, m: bv16)
    requires m != 0 && m & (m - 1) == 0
    ensures (a ^ b) & m != 0 <==> (a & m != 0) != (b & m != 0)
  {
  }

  lemma BetweenStep(start: set<int>, row: set<int>, target: set<int>, x: int)
    requires 0 <= x < COLUMNS && OneSource(target) && Between(start, row, target, x)
    ensures var after := if (x in start) != (x in target) then Sent(row, x, x in target) else row;
            Between(start, after, target, x + 1)
  {
  }

  lemma BetweenEnds(start: set<int>, row: set<int>, target: set<int>)
    requires Between(start, row, target, COLUMNS)
    requires forall c :: c in row || c in target ==> 0 <= c < COLUMNS
    ensures row == target
  {
    forall c ensures c in row <==> c in target {
      if c in row || c in target { assert 0 <= c < COLUMNS; }
    }
  }

  lemma NothingClosed()
    ensures Columns(0) == {}
  {
  }
}
