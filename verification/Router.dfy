/**
 What the fake GPIO code sees of the router: nodes, the paths a refresh comes back with, and the
 searches through them for a node's row on chip K.
 */
module Router {
  import opened Wrappers

  const GND: int := 100
  const TOP_RAIL: int := 101
  const BOTTOM_RAIL: int := 102
  const DAC0: int := 106
  const DAC1: int := 107
  const ADC0: int := 110

  const CHIP_K: int := 10

  /** A chip of a path and its row there. */
  datatype Hop = Hop(chip: int, y: int)

  datatype Path = Path(node1: int, node2: int, hops: seq<Hop>)

  /** What a refresh comes back with: chip K's bit field, and the paths. */
  datatype Routing = Routing(bits: seq<bv16>, paths: seq<Path>)

  predicate IsBreadboardNode(node: int) { 1 <= node <= 60 }

  predicate Touches(p: Path, node: int) { p.node1 == node || p.node2 == node }

  /** The row of a path on chip K, if it goes there. */
  function RowOfPath(hops: seq<Hop>): (r: Option<int>)
    ensures r.Some? ==> Hop(CHIP_K, r.value) in hops
    ensures r.None? ==> forall j :: 0 <= j < |hops| ==> hops[j].chip != CHIP_K
  {
    if hops == [] then None else if hops[0].chip == CHIP_K then Some(hops[0].y) else RowOfPath(hops[1..])
  }

  /** The row of the first path of a node that goes through chip K. */
  function FirstRow(paths: seq<Path>, node: int): Option<int> {
    if paths == [] then None
    else if Touches(paths[0], node) && RowOfPath(paths[0].hops).Some? then RowOfPath(paths[0].hops)
    else FirstRow(paths[1..], node)
  }

  /** The row of the first path of a node, if that one goes through chip K. */
  function FirstPathRow(paths: seq<Path>, node: int): Option<int> {
    if paths == [] then None
    else if Touches(paths[0], node) then RowOfPath(paths[0].hops)
    else FirstPathRow(paths[1..], node)
  }

  /** The narrower search comes back with nothing or with the same row. */
  lemma {:induction false} SearchesAgree(paths: seq<Path>, node: int)
    ensures FirstPathRow(paths, node).Some? ==> FirstPathRow(paths, node) == FirstRow(paths, node)
  {
    if paths != [] && !Touches(paths[0], node) { SearchesAgree(paths[1..], node); }
  }

  /** A path's row is that of its first hop on chip K. */
  lemma {:induction false} RowIsFirst(hops: seq<Hop>, j: nat)
    requires j < |hops| && hops[j].chip == CHIP_K && forall i :: 0 <= i < j ==> hops[i].chip != CHIP_K
    ensures RowOfPath(hops) == Some(hops[j].y)
  {
    if j > 0 { RowIsFirst(hops[1..], j - 1); }
  }

  /** The wider search ends at the first path that is the node's and goes through chip K... */
  lemma {:induction false} FirstRowIs(paths: seq<Path>, node: int, k: nat)
    requires k <= |paths|
    requires forall i :: 0 <= i < k ==> !Touches(paths[i], node) || RowOfPath(paths[i].hops).None?
    requires k < |paths| ==> Touches(paths[k], node) && RowOfPath(paths[k].hops).Some?
    ensures FirstRow(paths, node) == if k < |paths| then RowOfPath(paths[k].hops) else None
  {
    if k > 0 { FirstRowIs(paths[1..], node, k - 1); }
  }

  /** ...and the narrower one at the first that is the node's. */
  lemma {:induction false} FirstPathRowIs(paths: seq<Path>, node: int, k: nat)
    requires k <= |paths| && forall i :: 0 <= i < k ==> !Touches(paths[i], node)
    requires k < |paths| ==> Touches(paths[k], node)
    ensures FirstPathRow(paths, node) == if k < |paths| then RowOfPath(paths[k].hops) else None
  {
    if k > 0 { FirstPathRowIs(paths[1..], node, k - 1); }
  }

  method SearchPath(p: Path) returns (r: Option<int>)
    ensures r == RowOfPath(p.hops)
  {
    for j := 0 to |p.hops|
      invariant RowOfPath(p.hops) == RowOfPath(p.hops[j..])
    {
      if p.hops[j].chip == CHIP_K { return Some(p.hops[j].y); }
      assert p.hops[j..][1..] == p.hops[j + 1..];
    }
    return None;
  }

  /** The search of a write: on to the next path when one does not go through chip K. */
  method SearchPaths(paths: seq<Path>, node: int) returns (r: Option<int>)
    ensures r == FirstRow(paths, node)
  {
    for k := 0 to |paths|
      invariant FirstRow(paths, node) == FirstRow(paths[k..], node)
    {
      if paths[k].node1 == node || paths[k].node2 == node {
        r := SearchPath(paths[k]);
        if r.Some? { return; }
      }
      assert paths[k..][1..] == paths[k + 1..];
    }
    return None;
  }

  /** The search of a configuration call: the first path of the node decides. */
  method SearchFirstPath(paths: seq<Path>, node: int) returns (r: Option<int>)
    ensures r == FirstPathRow(paths, node)
  {
    for k := 0 to |paths|
      invariant FirstPathRow(paths, node) == FirstPathRow(paths[k..], node)
    {
      if paths[k].node1 == node || paths[k].node2 == node {
        r := SearchPath(paths[k]);
        return;
      }
      assert paths[k..][1..] == paths[k + 1..];
    }
    return None;
  }
}
