/**
 Configuring a fake GPIO output by voltage: which rail, DAC or ground stands for each level, and
 which DAC may be set to a level without disturbing another node. Voltages are reals.
 */
module DacAllocation {
  import opened Router
  import opened FakeGpioOutput

  datatype Error = InvalidHigh | InvalidLow | NoDacForHigh | NoDacForLow | SameSource

  /** The two source nodes a call goes on to configure the output with, or its refusal. */
  datatype Choice = Chosen(high: int, low: int) | Refused(error: Error)

  /** A DAC command. */
  datatype Setting = Setting(dac: int, volts: real)

  const TOLERANCE: real := 0.1

  /** Whether a DAC is on a path that does not touch `node`. */
  predicate UsedElsewhere(paths: seq<Path>, dacNode: int, node: int) {
    exists i :: 0 <= i < |paths| && Touches(paths[i], dacNode) && !Touches(paths[i], node)
  }

  predicate Near(a: real, b: real) { -TOLERANCE < a - b < TOLERANCE }

  predicate FromTopRail(v: real) { v >= 4.5 }

  predicate FromBottomRail(v: real) { 3.0 <= v <= 3.5 }

  predicate HighFromDac(v: real) { 0.0 <= v < 4.5 && !FromBottomRail(v) }

  predicate LowFromDac(v: real) { 0.1 < v < 5.0 && !FromBottomRail(v) }

  /** What a source gives: the rails their fixed levels, ground next to nothing, a DAC what it is set to. */
  predicate Supplies(node: int, v: real, d0: real, d1: real) {
    || (node == TOP_RAIL && v >= 4.5)
    || (node == BOTTOM_RAIL && 3.0 <= v <= 3.5)
    || (node == GND && v <= 0.1)
    || (node == DAC0 && d0 == v)
    || (node == DAC1 && d1 == v)
  }

  function NodeOf(dac: int): int { if dac == 0 then DAC0 else DAC1 }

  /** The first DAC already at the voltage, or else the first one not used elsewhere; -1 for none. */
  function Available(d0: real, d1: real, used0: bool, used1: bool, target: real): int {
    if Near(d0, target) then 0
    else if Near(d1, target) then 1
    else if !used0 then 0
    else if !used1 then 1
    else -1
  }

  /** Whether both levels of an output can come from DACs. */
  predicate TwoDacsWork(d0: real, d1: real, used0: bool, used1: bool, vHigh: real, vLow: real) {
    match Available(d0, d1, used0, used1, vHigh)
    case 0 => !Near(vHigh, vLow) && (Near(d1, vLow) || (used0 && !used1))
    case 1 => Near(d0, vLow) || (!Near(vHigh, vLow) && !used0)
    case _ => false
  }

  /** Whether a call succeeds, for any two levels. */
  predicate LevelsWork(d0: real, d1: real, used0: bool, used1: bool, vHigh: real, vLow: real) {
    if !LowFromDac(vLow) then
      && (vLow <= 0.1 || FromBottomRail(vLow))
      && (FromTopRail(vHigh)
          || (FromBottomRail(vHigh) && !FromBottomRail(vLow))
          || (HighFromDac(vHigh) && Available(d0, d1, used0, used1, vHigh) >= 0))
    else if HighFromDac(vHigh) then TwoDacsWork(d0, d1, used0, used1, vHigh, vLow)
    else (FromTopRail(vHigh) || FromBottomRail(vHigh)) && Available(d0, d1, used0, used1, vLow) >= 0
  }

  class Power {
    var dac0: real
    var dac1: real
    var paths: seq<Path>
    ghost var settings: seq<Setting>

    constructor (paths: seq<Path>, dac0: real, dac1: real)
      ensures this.paths == paths && this.dac0 == dac0 && this.dac1 == dac1 && settings == []
    {
      this.paths, this.dac0, this.dac1, settings := paths, dac0, dac1, [];
    }

    function Volts(dac: int): real
      reads this
    {
      if dac == 0 then dac0 else dac1
    }

    method IsDacConnected(dacNode: int, excludeNode: int) returns (connected: bool)
      ensures connected <==> UsedElsewhere(paths, dacNode, excludeNode)
    {
      for i := 0 to |paths|
        invariant forall j :: 0 <= j < i ==> !(Touches(paths[j], dacNode) && !Touches(paths[j], excludeNode))
      {
        var hasDac := paths[i].node1 == dacNode || paths[i].node2 == dacNode;
        var hasExcluded := paths[i].node1 == excludeNode || paths[i].node2 == excludeNode;
        if hasDac && !hasExcluded { return true; }
      }
      return false;
    }

    method FindAvailableDac(target: real, excludeNode: int) returns (dac: int)
      ensures dac == Available(dac0, dac1, UsedElsewhere(paths, DAC0, excludeNode), UsedElsewhere(paths, DAC1, excludeNode), target)
      ensures dac >= 0 ==> Near(Volts(dac), target) || !UsedElsewhere(paths, NodeOf(dac), excludeNode)
      // one that is there already before one that is free, the first before the second
      ensures dac == 0 <==> Near(dac0, target) || (!Near(dac1, target) && !UsedElsewhere(paths, DAC0, excludeNode))
      ensures dac == -1 <==> !Near(dac0, target) && !Near(dac1, target)
                             && UsedElsewhere(paths, DAC0, excludeNode) && UsedElsewhere(paths, DAC1, excludeNode)
    {
      if -TOLERANCE < dac0 - target < TOLERANCE { return 0; }
      if -TOLERANCE < dac1 - target < TOLERANCE { return 1; }
      var connected0 := IsDacConnected(DAC0, excludeNode);
      var connected1 := IsDacConnected(DAC1, excludeNode);
      if !connected0 { return 0; }
      if !connected1 { return 1; }
      return -1;
    }

    method SetDac(dac: int, volts: real)
      requires dac == 0 || dac == 1
      modifies this`dac0, this`dac1, this`settings
      ensures dac0 == (if dac == 0 then volts else old(dac0)) && dac1 == (if dac == 1 then volts else old(dac1))
      ensures settings == old(settings) + [Setting(dac, volts)]
    {
      if dac == 0 { dac0 := volts; } else { dac1 := volts; }
      settings := settings + [Setting(dac, volts)];
    }

    method ChooseHigh(node: int, vHigh: real) returns (high: Choice)
      modifies this`dac0, this`dac1, this`settings
      ensures high.Chosen? <==>
                || FromTopRail(vHigh)
                || FromBottomRail(vHigh)
                || (HighFromDac(vHigh) && old(ChosenDac(node, vHigh)) >= 0)
      ensures high.Chosen? ==> high.high == (if FromTopRail(vHigh) then TOP_RAIL
                                             else if FromBottomRail(vHigh) then BOTTOM_RAIL
                                             else NodeOf(old(ChosenDac(node, vHigh))))
      ensures if high.Chosen? && HighFromDac(vHigh)
              then var dac := old(ChosenDac(node, vHigh));
                   && settings == old(settings) + [Setting(dac, vHigh)]
                   && dac0 == (if dac == 0 then vHigh else old(dac0)) && dac1 == (if dac == 1 then vHigh else old(dac1))
              else settings == old(settings) && dac0 == old(dac0) && dac1 == old(dac1)
    {
      if vHigh >= 4.5 { return Chosen(TOP_RAIL, 0); }
      if vHigh >= 3.0 && vHigh <= 3.5 { return Chosen(BOTTOM_RAIL, 0); }
      if vHigh >= 0.0 && vHigh < 5.0 {
        var dac := FindAvailableDac(vHigh, node);
        if dac < 0 { return Refused(NoDacForHigh); }
        SetDac(dac, vHigh);
        return Chosen(NodeOf(dac), 0);
      }
      return Refused(InvalidHigh);
    }

    predicate Works(node: int, vHigh: real, vLow: real)
      reads this
    {
      LevelsWork(dac0, dac1, UsedElsewhere(paths, DAC0, node), UsedElsewhere(paths, DAC1, node), vHigh, vLow)
    }

    /** The DAC a level would get now. */
    function ChosenDac(node: int, v: real): int
      reads this
    {
      Available(dac0, dac1, UsedElsewhere(paths, DAC0, node), UsedElsewhere(paths, DAC1, node), v)
    }

    method ChooseLow(node: int, vLow: real, high: int) returns (low: Choice)
      modifies this`dac0, this`dac1, this`settings
      ensures low.Chosen? <==>
                || vLow <= 0.1
                || FromBottomRail(vLow)
                || (LowFromDac(vLow) && old(ChosenDac(node, vLow)) >= 0 && NodeOf(old(ChosenDac(node, vLow))) != high)
      ensures low.Chosen? ==> low.low == (if vLow <= 0.1 then GND
                                          else if FromBottomRail(vLow) then BOTTOM_RAIL
                                          else NodeOf(old(ChosenDac(node, vLow))))
      ensures if low.Chosen? && LowFromDac(vLow)
              then var dac := old(ChosenDac(node, vLow));
                   && settings == old(settings) + [Setting(dac, vLow)]
                   && dac0 == (if dac == 0 then vLow else old(dac0)) && dac1 == (if dac == 1 then vLow else old(dac1))
              else settings == old(settings) && dac0 == old(dac0) && dac1 == old(dac1)
    {
      if vLow <= 0.1 { return Chosen(high, GND); }
      if vLow >= 3.0 && vLow <= 3.5 { return Chosen(high, BOTTOM_RAIL); }
      if vLow >= 0.0 && vLow < 5.0 {
        var dac := FindAvailableDac(vLow, node);
        if dac == 0 && high != DAC0 {
          SetDac(0, vLow);
          return Chosen(high, DAC0);
        } else if dac == 1 && high != DAC1 {
          SetDac(1, vLow);
          return Chosen(high, DAC1);
        }
        return Refused(NoDacForLow);
      }
      return Refused(InvalidLow);
    }

    /** fakeGpioConfigOutputVoltage up to the configuration by nodes. */
    method ConfigOutputVoltage(node: int, vHigh: real, vLow: real) returns (r: Choice)
      modifies this`dac0, this`dac1, this`settings
      // a DAC on another node's path stays within the tolerance
      ensures forall d :: 0 <= d < 2 && UsedElsewhere(paths, NodeOf(d), node) ==> Near(Volts(d), old(Volts(d)))
      // each DAC is set at most once
      ensures |old(settings)| <= |settings| <= |old(settings)| + 2 && settings[..|old(settings)|] == old(settings)
      ensures |settings| == |old(settings)| + 2 ==> settings[|old(settings)|].dac != settings[|old(settings)| + 1].dac
      // the sources differ
      ensures r.Chosen? ==> r.high != r.low && IsVoltageSource(r.high) && IsVoltageSource(r.low)
      // a chosen DAC is at the level asked for
      ensures r.Chosen? && HighFromDac(vHigh) ==> exists d :: 0 <= d < 2 && r.high == NodeOf(d) && Volts(d) == vHigh
      ensures r.Chosen? && LowFromDac(vLow) ==> exists d :: 0 <= d < 2 && r.low == NodeOf(d) && Volts(d) == vLow
      // each source supplies the level asked for
      ensures r.Chosen? ==> Supplies(r.high, vHigh, dac0, dac1) && Supplies(r.low, vLow, dac0, dac1)
      ensures r.Chosen? ==> (vHigh >= 4.5 <==> r.high == TOP_RAIL) && (3.0 <= vHigh <= 3.5 <==> r.high == BOTTOM_RAIL)
      ensures r.Chosen? ==> (vLow <= 0.1 <==> r.low == GND) && (3.0 <= vLow <= 3.5 <==> r.low == BOTTOM_RAIL)
      // exactly when the call succeeds
      ensures r.Chosen? <==> old(Works(node, vHigh, vLow))
      // the DAC found for the high level is set first, even if the call is refused afterwards
      ensures HighFromDac(vHigh) && old(ChosenDac(node, vHigh)) >= 0 ==>
                |settings| > |old(settings)| && settings[|old(settings)|] == Setting(old(ChosenDac(node, vHigh)), vHigh)
    {
      var high := ChooseHigh(node, vHigh);
      if high.Refused? { return high; }
      var low := ChooseLow(node, vLow, high.high);
      if low.Refused? { return low; }
      if high.high == low.low { return Refused(SameSource); }
      return Chosen(high.high, low.low);
    }
  }

  /** With both DACs free and neither near its level, a two-DAC output is refused: the second search
      comes back with the DAC just taken, although the other one is free. */
  lemma FreeDacsAreNotEnough(d0: real, d1: real, vHigh: real, vLow: real)
    requires !Near(d0, vHigh) && !Near(d1, vHigh) && !Near(d1, vLow)
    ensures !TwoDacsWork(d0, d1, false, false, vHigh, vLow)
  {
  }
}
