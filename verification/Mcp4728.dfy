/**
 The MCP4728 driver's conversion from millivolts to 12-bit codes and back, in the driver's integer
 arithmetic: truncating divisions, 16-bit codes and a 32-bit product.
 */
module Mcp4728 {

  const CHANNELS: nat := 4
  const WORD: nat := 0x1_0000
  const LONG: nat := 0x1_0000_0000

  /** Which reference a channel uses: 2048 mV internal with gain 1 or 2, or the supply. */
  datatype Channel = Channel(internal: bool, gain: nat)

  predicate Fine(c: Channel) { c.gain <= 1 }

  /** A product and a quotient, kept whole. */
  function Times(a: nat, b: nat): nat { a * b }

  function Quotient(a: nat, d: nat): nat
    requires d > 0
  {
    a / d
  }

  function CodeFor(c: Channel, vdd: nat, mv: nat): nat
    requires vdd > 0
  {
    (if c.internal then Quotient(mv, c.gain + 1) * 2 else Quotient(mv * 4096, vdd)) % WORD
  }

  /** The 32-bit product in units of the 12-bit scale. */
  function Scaled(product: nat): nat { product % LONG / 4096 }

  function Capped(out: nat, vdd: nat): nat { if out > vdd then vdd else out }

  function ReadBack(c: Channel, vdd: nat, code: nat): nat {
    Capped(Scaled(Times(Times(if c.internal then 2048 else vdd, code), c.gain + 1)), vdd)
  }

  // ---- arithmetic ----

  lemma QuotientBounds(a: nat, d: nat)
    requires d > 0
    ensures Times(Quotient(a, d), d) <= a < Times(Quotient(a, d), d) + d
  {
  }

  lemma Larger(a: nat, b: nat, d: nat)
    requires a <= b
    ensures Times(a, d) <= Times(b, d)
  {
  }

  lemma Swap(a: nat, b: nat)
    ensures Times(a, b) == Times(b, a)
  {
  }

  lemma ByGain(x: nat)
    ensures Times(x, 1) == x && Times(x, 2) == 2 * x && Quotient(x, 1) == x && Quotient(x, 2) == x / 2
  {
  }

  /** The gain in the 32-bit product. */
  lemma GainScales(product: nat, gain: nat)
    requires gain <= 1 && product < 0x1000_0000
    ensures Scaled(Times(product, gain + 1)) == if gain == 0 then product / 4096 else 2 * product / 4096
  {
    ByGain(product);
  }

  // ---- the internal reference ----

  /** On the internal reference a request below full scale and up to the supply reads back rounded
      down to a multiple of the gain factor. */
  lemma InternalRoundTrip(c: Channel, vdd: nat, mv: nat)
    requires c.internal && Fine(c) && vdd > 0 && mv <= vdd && mv < 2048 * (c.gain + 1)
    ensures var code := CodeFor(c, vdd, mv);
            && code < 4096
            && ReadBack(c, vdd, code) == mv - mv % (c.gain + 1)
            && mv - (c.gain + 1) < ReadBack(c, vdd, code) <= mv
  {
    InternalCode(c, vdd, mv);
    InternalReadBack(c, vdd, if c.gain == 0 then mv else mv / 2);
  }

  lemma InternalCode(c: Channel, vdd: nat, mv: nat)
    requires c.internal && Fine(c) && vdd > 0 && mv < 2048 * (c.gain + 1)
    ensures CodeFor(c, vdd, mv) == 2 * (if c.gain == 0 then mv else mv / 2) < 4096
  {
    ByGain(mv);
  }

  lemma InternalReadBack(c: Channel, vdd: nat, q: nat)
    requires c.internal && Fine(c) && q < 2048
    ensures ReadBack(c, vdd, 2 * q) == Capped(if c.gain == 0 then q else 2 * q, vdd)
  {
    assert Times(2048, 2 * q) == 4096 * q;
    GainScales(4096 * q, c.gain);
  }

  // ---- the external reference ----

  /** A code below full scale stands for the request but for less than a step. */
  lemma CodeIsBelowFullScale(mv: nat, vdd: nat)
    requires mv < vdd
    ensures var code := Quotient(mv * 4096, vdd);
            code < 4096 && Times(code, vdd) <= mv * 4096 < Times(code, vdd) + vdd
  {
    var code := Quotient(mv * 4096, vdd);
    QuotientBounds(mv * 4096, vdd);
    if code >= 4096 { Larger(4096, code, vdd); }
  }

  /** A code of 12 bits reads back as its share of the supply, times the gain factor. */
  lemma ReadBackExternal(c: Channel, vdd: nat, code: nat)
    requires !c.internal && Fine(c) && code < 4096 && vdd < WORD
    ensures ReadBack(c, vdd, code) == Capped((if c.gain == 0 then 1 else 2) * Times(code, vdd) / 4096, vdd)
  {
    Larger(code, 4096, vdd);
    Swap(code, vdd);
    GainScales(Times(vdd, code), c.gain);
  }

  /** On the external reference at gain 1 the loss stays below one code step and one millivolt. */
  lemma ExternalRoundTrip(c: Channel, vdd: nat, mv: nat)
    requires !c.internal && c.gain == 0 && mv < vdd < WORD
    ensures var code := CodeFor(c, vdd, mv);
            && code < 4096
            && ReadBack(c, vdd, code) <= mv
            && 4096 * (mv - ReadBack(c, vdd, code)) < vdd + 4096
  {
    CodeIsBelowFullScale(mv, vdd);
    ReadBackExternal(c, vdd, Quotient(mv * 4096, vdd));
  }

  /** With gain 2 set, a request on the external reference reads back as twice what its code
      stands for, up to the supply; that is above the request but for the lowest ones. */
  lemma ExternalGainDoubles(c: Channel, vdd: nat, mv: nat)
    requires !c.internal && c.gain == 1 && mv < vdd < WORD
    ensures var code := CodeFor(c, vdd, mv);
            && code == mv * 4096 / vdd
            && ReadBack(c, vdd, code) == Capped(2 * (code * vdd) / 4096, vdd)
            && (4096 * mv >= 2 * vdd + 4096 ==> ReadBack(c, vdd, code) > mv)
  {
    CodeIsBelowFullScale(mv, vdd);
    ReadBackExternal(c, vdd, Quotient(mv * 4096, vdd));
  }

  /** No request below the supply reads back above itself exactly when the gain is 1, or the supply
      a single millivolt. */
  lemma NeverAboveRequestIff(c: Channel, vdd: nat)
    requires !c.internal && Fine(c) && 0 < vdd < WORD
    ensures (forall mv: nat :: mv < vdd ==> ReadBack(c, vdd, CodeFor(c, vdd, mv)) <= mv) <==> c.gain == 0 || vdd == 1
  {
    if c.gain == 0 {
      forall mv: nat | mv < vdd ensures ReadBack(c, vdd, CodeFor(c, vdd, mv)) <= mv { ExternalRoundTrip(c, vdd, mv); }
    } else if vdd == 1 {
      assert CodeFor(c, vdd, 0) == 0 && ReadBack(c, vdd, 0) == 0;
    } else if vdd == 2 {
      assert CodeFor(c, vdd, 1) == 2048 && ReadBack(c, vdd, 2048) == 2;
    } else {
      ExternalGainDoubles(c, vdd, vdd - 1);
      assert ReadBack(c, vdd, CodeFor(c, vdd, vdd - 1)) > vdd - 1;
    }
  }

  // ---- the width of the code ----

  /** Short of the 16-bit wrap, the code has 12 bits exactly when the request is below full scale. */
  lemma CodeFitsIff(c: Channel, vdd: nat, mv: nat)
    requires Fine(c) && vdd > 0 && mv < 16 * (if c.internal then 2048 * (c.gain + 1) else vdd)
    ensures CodeFor(c, vdd, mv) < 4096 <==> mv < if c.internal then 2048 * (c.gain + 1) else vdd
  {
    if c.internal { ByGain(mv); } else { QuotientFits(mv, vdd, Quotient(mv * 4096, vdd)); }
  }

  lemma QuotientFits(mv: nat, vdd: nat, code: nat)
    requires vdd > 0 && code == Quotient(mv * 4096, vdd) && mv < 16 * vdd
    ensures code < WORD && (code < 4096 <==> mv < vdd)
  {
    QuotientBelow(mv * 4096, vdd, code, WORD);
    QuotientBelow(mv * 4096, vdd, code, 4096);
  }

  lemma QuotientBelow(n: nat, d: nat, q: nat, k: nat)
    requires d > 0 && q == Quotient(n, d)
    ensures q < k <==> n < Times(k, d)
  {
    QuotientBounds(n, d);
    if q >= k { Larger(k, q, d); } else { Larger(q + 1, k, d); }
  }

  class Dac {
    const channels: array<Channel>
    const values: array<nat>
    const vOut: array<nat>
    var vdd: nat

    predicate Valid()
      reads this, channels
    {
      && channels.Length == CHANNELS == values.Length == vOut.Length && values != vOut
      && 0 < vdd < WORD && forall c :: 0 <= c < CHANNELS ==> Fine(channels[c])
    }

    constructor (vdd: nat, settings: seq<Channel>)
      requires 0 < vdd < WORD && |settings| == CHANNELS && forall c :: 0 <= c < CHANNELS ==> Fine(settings[c])
      ensures Valid() && this.vdd == vdd && channels[..] == settings
      ensures fresh(channels) && fresh(values) && fresh(vOut)
    {
      channels := new Channel[CHANNELS](c requires 0 <= c < |settings| => settings[c]);
      values := new nat[CHANNELS](_ => 0);
      vOut := new nat[CHANNELS](_ => 0);
      this.vdd := vdd;
    }

    method WriteVout()
      requires Valid()
      modifies values
      ensures Valid()
      ensures forall c :: 0 <= c < CHANNELS ==> values[c] == CodeFor(channels[c], vdd, vOut[c])
    {
      for c := 0 to CHANNELS
        invariant Valid()
        invariant forall k :: 0 <= k < c ==> values[k] == CodeFor(channels[k], vdd, vOut[k])
      {
        if channels[c].internal {
          values[c] := Quotient(vOut[c], channels[c].gain + 1) * 2 % WORD;
        } else {
          values[c] := Quotient(vOut[c] * 4096, vdd) % WORD;
        }
      }
    }

    /** voutWrite for one channel: the request, then every channel's code. */
    method VoutWrite(channel: nat, mv: nat)
      requires Valid() && channel < CHANNELS
      modifies values, vOut
      ensures Valid() && vOut[..] == old(vOut[..])[channel := mv]
      ensures forall c :: 0 <= c < CHANNELS ==> values[c] == CodeFor(channels[c], vdd, vOut[c])
    {
      vOut[channel] := mv;
      assert vOut[..] == old(vOut[..])[channel := mv];
      WriteVout();
    }

    method GetVout(channel: nat) returns (mv: nat)
      requires Valid() && channel < CHANNELS
      ensures mv == ReadBack(channels[channel], vdd, values[channel]) && mv <= vdd
    {
      var vref := if channels[channel].internal then 2048 else vdd;
      mv := Times(Times(vref, values[channel]), channels[channel].gain + 1) % LONG / 4096;
      if mv > vdd { mv := vdd; }
    }
  }
}
