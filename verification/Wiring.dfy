/**
 What chip K's columns are wired to: breadboard and header nodes, power supplies, ADC inputs, and
 lanes to other chips.
 */
module Wiring {
  import opened Crosspoints
  import opened Router

  datatype Wire = Node(node: int) | Lane(chip: int)

  const ROUTABLE_BUFFER_IN: int := 139
  const NANO_AREF: int := 85

  /** The columns of chip K, from 0 on. */
  const CHIP_K_X: seq<Wire> := [
    Node(29), Node(59), Node(ROUTABLE_BUFFER_IN), Node(NANO_AREF),
    Node(TOP_RAIL), Node(BOTTOM_RAIL), Node(DAC1), Node(DAC0),
    Node(ADC0), Node(ADC0 + 1), Node(ADC0 + 2), Node(ADC0 + 3),
    Lane(11), Lane(8), Lane(9), Node(GND)
  ]

  const SUPPLIES: set<int> := {GND, TOP_RAIL, BOTTOM_RAIL, DAC0, DAC1}

  function WireOf(x: int): Wire
    requires 0 <= x < COLUMNS
  {
    CHIP_K_X[x]
  }

  predicate IsSupply(x: int) { 0 <= x < COLUMNS && WireOf(x).Node? && WireOf(x).node in SUPPLIES }

  /** The power supplies that a row is connected to. */
  function SuppliesOn(row: set<int>): set<int> { set x | x in row && IsSupply(x) :: WireOf(x).node }

  /** The columns that are guarded are those wired to a supply. */
  lemma GuardedColumnsAreSupplies(x: int)
    ensures x in SOURCES <==> IsSupply(x)
  {
    if 0 <= x < COLUMNS {
      assert WireOf(x) == CHIP_K_X[x];
    }
  }

  /** No supply is wired to two columns. */
  lemma SuppliesAreApart(x: int, y: int)
    requires IsSupply(x) && IsSupply(y) && WireOf(x).node == WireOf(y).node
    ensures x == y
  {
    GuardedColumnsAreSupplies(x);
    GuardedColumnsAreSupplies(y);
  }

  /** A row with one guarded column closed is connected to the supply of that column. */
  lemma OneColumnOneSupply(row: set<int>, x: int)
    requires row * SOURCES == {x}
    ensures IsSupply(x) && SuppliesOn(row) == {WireOf(x).node}
  {
    assert x in row * SOURCES;
    GuardedColumnsAreSupplies(x);
    forall n ensures n in SuppliesOn(row) <==> n == WireOf(x).node {
      if n in SuppliesOn(row) {
        var y :| y in row && IsSupply(y) && WireOf(y).node == n;
        GuardedColumnsAreSupplies(y);
        assert y in row * SOURCES;
      }
    }
  }

  /** The protection on columns is one against shorts: a row is safe exactly when it is connected to at
      most one supply. */
  lemma SafeIffOneSupply(row: set<int>)
    ensures OneSource(row) <==> forall a, b :: a in SuppliesOn(row) && b in SuppliesOn(row) ==> a == b
  {
    forall x ensures x in SOURCES <==> IsSupply(x) { GuardedColumnsAreSupplies(x); }
    if OneSource(row) {
      forall a, b | a in SuppliesOn(row) && b in SuppliesOn(row) ensures a == b {
        var x :| x in row && IsSupply(x) && WireOf(x).node == a;
        var y :| y in row && IsSupply(y) && WireOf(y).node == b;
      }
    } else if forall a, b :: a in SuppliesOn(row) && b in SuppliesOn(row) ==> a == b {
      var x, y :| x in row && y in row && x in SOURCES && y in SOURCES && x != y;
      assert WireOf(x).node in SuppliesOn(row) && WireOf(y).node in SuppliesOn(row);
      SuppliesAreApart(x, y);
    }
  }
}
