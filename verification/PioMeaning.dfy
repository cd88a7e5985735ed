/**
 What an assembled program means: every word, decoded as the hardware would, is the instruction
 its line asked for, with labels resolved across both passes, and the wrap registers name the
 instructions the directives stand at.
 */
module PioMeaning {
  import opened Wrappers
  import opened PioEncoding
  import opened PioAssembler

  // ---- labels ----

  lemma {:induction false} CountGrows(body: Body, j: nat, k: nat)
    requires j <= k <= |body|
    ensures Count(body[..j]) <= Count(body[..k])
    decreases k
  {
    if j < k {
      Snoc(body, k - 1);
      CountGrows(body, j, k - 1);
    }
  }

  lemma {:induction false} LabelsOfPrefix(body: Body, j: nat, k: nat)
    requires j < k <= |body| && Legal0(body) && body[j].Label?
    ensures body[j].name in Labels(body[..k]) && Labels(body[..k])[body[j].name] == Count(body[..j])
    decreases k
  {
    Snoc(body, k - 1);
    if j < k - 1 {
      LabelsOfPrefix(body, j, k - 1);
      assert Fine0(body, k - 1);
    }
  }

  /** A label is the number of instructions before it, which is the index of the next one. */
  lemma LabelIsNextInstruction(body: Body, j: nat)
    requires j < |body| && Legal0(body) && body[j].Label?
    ensures body[j].name in Labels(body) && Labels(body)[body[j].name] == Count(body[..j])
  {
    LabelsOfPrefix(body, j, |body|);
    assert body[..|body|] == body;
  }

  lemma {:induction false} LabelHasLine(body: Body, name: string) returns (j: nat)
    requires name in Labels(body)
    ensures j < |body| && body[j] == Label(name)
  {
    if Last(body).Label? && Last(body).name == name {
      j := |body| - 1;
    } else {
      j := LabelHasLine(Front(body), name);
    }
  }

  // ---- words ----

  lemma WordsGrow(body: Body, m: nat, labels: map<string, nat>, s: word, optional: bool)
    requires 0 < m <= |body| && s <= MAX_SIDE
    ensures Words(body[..m - 1], labels, s, optional) <= Words(body[..m], labels, s, optional)
  {
    Snoc(body, m - 1);
  }

  lemma {:induction false} WordsOfPrefix(body: Body, k: nat, m: nat, labels: map<string, nat>, s: word, optional: bool)
    requires k <= m <= |body| && s <= MAX_SIDE
    ensures Words(body[..k], labels, s, optional) <= Words(body[..m], labels, s, optional)
    decreases m
  {
    if k < m {
      WordsOfPrefix(body, k, m - 1, labels, s, optional);
      WordsGrow(body, m, labels, s, optional);
      PrefixTwice(Words(body[..k], labels, s, optional), Words(body[..m - 1], labels, s, optional),
                  Words(body[..m], labels, s, optional));
    }
  }

  lemma PrefixTwice(a: seq<word>, b: seq<word>, c: seq<word>)
    requires a <= b <= c
    ensures a <= c
  {
  }

  lemma WordOfLast(body: Body, k: nat, labels: map<string, nat>, s: word, optional: bool)
    requires k < |body| && body[k].Instr? && s <= MAX_SIDE
    ensures Count(body[..k]) < |Words(body[..k + 1], labels, s, optional)|
    ensures Words(body[..k + 1], labels, s, optional)[Count(body[..k])] == Pack(body[k], labels, s, optional)
  {
    Snoc(body, k);
  }

  lemma WordOfPrefix(body: Body, k: nat, labels: map<string, nat>, s: word, optional: bool)
    requires k < |body| && body[k].Instr? && s <= MAX_SIDE
    ensures Count(body[..k]) < |Words(body, labels, s, optional)|
    ensures Words(body, labels, s, optional)[Count(body[..k])] == Pack(body[k], labels, s, optional)
  {
    WordOfLast(body, k, labels, s, optional);
    WordsOfPrefix(body, k + 1, |body|, labels, s, optional);
    assert body[..|body|] == body;
  }

  lemma {:induction false} AllOrNothing(body: Body, k: nat, m: nat)
    requires k < m <= |body| && Sides(body[..m]) == Count(body[..m]) && body[k].Instr?
    ensures body[k].side.Some?
    decreases m
  {
    Snoc(body, m - 1);
    if k < m - 1 { AllOrNothing(body, k, m - 1); }
  }

  /** The word of a line as its four parts, the first two decoding to what the line asked for. */
  lemma PackParts(line: Line, labels: map<string, nat>, s: word, optional: bool) returns (base: word, address: word)
    requires line.Instr? && InRange(line.op) && s <= MAX_SIDE
    requires Target(line.op).Some? ==> Target(line.op).value in labels && labels[Target(line.op).value] < 32
    ensures Pack(line, labels, s, optional) ==
              OrFields(base, address, SideBits(line.side, s, optional), DelayBits(line.delay))
    ensures (base | address) & 0x1F00 == 0
    ensures Decode(base | address) == Meaning(line.op, Address(Target(line.op), labels))
  {
    base, address := Base(line.op), Address(Target(line.op), labels);
    BaseMeans(line.op, address);
  }

  lemma WordParts(body: Body, k: nat, pins: word, addr: nat) returns (base: word, address: word)
    requires k < |body| && body[k].Instr? && pins <= 5 && InRange(body[k].op)
    requires match Target(body[k].op) case None => addr == 0 case Some(l) => l in Labels(body) && Labels(body)[l] == addr < 32
    ensures Count(body[..k]) < |Code(body, pins)|
    ensures var optional := Optional(body, pins);
            Code(body, pins)[Count(body[..k])] ==
              OrFields(base, address, SideBits(body[k].side, SideCount(pins, optional), optional), DelayBits(body[k].delay))
    ensures (base | address) & 0x1F00 == 0
    ensures Decode(base | address) == Meaning(body[k].op, addr as word)
  {
    var optional := Optional(body, pins);
    WordOfPrefix(body, k, Labels(body), SideCount(pins, optional), optional);
    base, address := PackParts(body[k], Labels(body), SideCount(pins, optional), optional);
  }

  /** The line that the label of line k stands on, if it has one, is line j. */
  predicate Resolves(body: Body, k: nat, j: nat)
    requires k < |body| && j < |body|
  {
    body[k].Instr? && Target(body[k].op).Some? && body[j] == Label(Target(body[k].op).value)
  }

  /** A side value has a bit for every pin at most. */
  predicate SideFits(side: Option<word>, pins: word)
    requires pins <= 5
  {
    side.Some? ==> side.value < 1 << pins
  }

  /** What an accepted line's fields satisfy. */
  lemma LinePasses(body: Body, pins: word, k: nat)
    requires pins <= 5 && Accepted(body, pins) && (Optional(body, pins) ==> pins < 5)
    requires k < |body| && body[k].Instr?
    ensures var s, side, delay := SideCount(pins, Optional(body, pins)), body[k].side, body[k].delay;
            && s <= 5 && (if Optional(body, pins) then s > 0 && s - 1 == pins else s == pins)
            && (delay.Some? ==> delay.value <= 31 >> s)
            && (side.Some? ==> s > 0 && side.value < 1 << s)
            && (side.None? ==> s == 0 || Optional(body, pins))
  {
    assert Fine1(body, k, Labels(body), SideCount(pins, Optional(body, pins)));
    if pins > 0 && !Optional(body, pins) {
      assert body[..|body|] == body;
      AllOrNothing(body, k, |body|);
    }
  }

  /** What the hardware makes of a word: the instruction and the delay, and the side value if it fits. */
  predicate Reads(w: word, meaning: Instruction, delay: Option<word>, side: Option<word>, s: word, optional: bool,
                  fits: bool)
    requires s <= 5
  {
    && Decode(w) == meaning
    && DecodeDelay(w, s) == (if delay.Some? then delay.value else 0)
    && (DecodeSide(w, s, optional) == side <==> fits)
  }

  lemma WordWithSideReads(w: word, base: word, address: word, value: word, delay: Option<word>, s: word,
                          optional: bool, pins: word, meaning: Instruction)
    requires (base | address) & 0x1F00 == 0 && 0 < s <= 5 && Decode(base | address) == meaning
    requires delay.Some? ==> delay.value <= 31 >> s
    requires value < 1 << s && pins == if optional then s - 1 else s
    requires w == OrFields(base, address, SideBits(Some(value), s, optional), DelayBits(delay))
    ensures Reads(w, meaning, delay, Some(value), s, optional, value < 1 << pins)
  {
    CheckedFieldsDecode(base, address, value, delay, s, optional);
    DecodeIgnoresFields(w);
  }

  lemma WordWithoutSideReads(w: word, base: word, address: word, delay: Option<word>, s: word, optional: bool,
                             meaning: Instruction)
    requires (base | address) & 0x1F00 == 0 && s <= 5 && Decode(base | address) == meaning
    requires (delay.Some? ==> delay.value <= 31 >> s) && (s == 0 || optional)
    requires w == OrFields(base, address, SideBits(None, s, optional), DelayBits(delay))
    ensures Reads(w, meaning, delay, None, s, optional, true)
  {
    FieldsDecode(base, address, None, delay, s, optional);
    DecodeIgnoresFields(w);
  }

  /** Two-pass assembly preserves meaning, line by line: the instruction and the delay always,
      whatever line its label stands on, and the side value exactly when it fits the pins. */
  lemma AssemblyKeepsMeaning(body: Body, pins: word, k: nat, j: nat)
    requires pins <= 5 && Accepted(body, pins) && (Optional(body, pins) ==> pins < 5)
    requires k < |body| && j < |body| && body[k].Instr? && InRange(body[k].op)
    requires Target(body[k].op).Some? ==> Resolves(body, k, j) && Count(body[..j]) < 32
    ensures SideCount(pins, Optional(body, pins)) <= 5
    ensures var n, addr := Count(body[..k]), if Target(body[k].op).Some? then Count(body[..j]) else 0;
            && n < |Code(body, pins)|
            && Reads(Code(body, pins)[n], Meaning(body[k].op, addr as word), body[k].delay, body[k].side,
                     SideCount(pins, Optional(body, pins)), Optional(body, pins), SideFits(body[k].side, pins))
  {
    var addr := if Target(body[k].op).Some? then Count(body[..j]) else 0;
    var s, optional, side := SideCount(pins, Optional(body, pins)), Optional(body, pins), body[k].side;
    if Target(body[k].op).Some? { LabelIsNextInstruction(body, j); }
    LinePasses(body, pins, k);
    var base, address := WordParts(body, k, pins, addr);
    var w, meaning := Code(body, pins)[Count(body[..k])], Meaning(body[k].op, addr as word);
    if side.Some? {
      WordWithSideReads(w, base, address, side.value, body[k].delay, s, optional, pins, meaning);
    } else {
      WordWithoutSideReads(w, base, address, body[k].delay, s, optional, meaning);
    }
  }

  /** Forward or backward, a label that is used has its line in an accepted program. */
  lemma TargetsResolve(body: Body, pins: word, k: nat) returns (j: nat)
    requires pins <= 5 && Accepted(body, pins)
    requires k < |body| && body[k].Instr? && Target(body[k].op).Some?
    ensures j < |body| && Resolves(body, k, j)
  {
    assert Fine1(body, k, Labels(body), SideCount(pins, Optional(body, pins)));
    j := LabelHasLine(body, Target(body[k].op).value);
  }

  // ---- numbers in registers ----

  /** The number in `width` bits of a register from bit `lo` on. */
  function Field(b: Bits, lo: nat, width: nat): nat
    decreases width
  {
    if width == 0 then 0 else (if lo in b then 1 else 0) + 2 * Field(b, lo + 1, width - 1)
  }

  lemma {:induction false} FieldOf(b: Bits, c: Bits, lo: nat, width: nat)
    requires forall i :: lo <= i < lo + width ==> (i in b <==> i in c)
    ensures Field(b, lo, width) == Field(c, lo, width)
    decreases width
  {
    if width > 0 { FieldOf(b, c, lo + 1, width - 1); }
  }

  /** A number below 2^width has its ones in the first `width` places and reads back from anywhere. */
  function Power(width: nat): (p: nat)
    ensures p > 0
  {
    if width == 0 then 1 else 2 * Power(width - 1)
  }

  lemma {:induction false} OnesBelow(n: nat, width: nat)
    requires n < Power(width)
    ensures forall i :: i in Ones(n) ==> i < width
  {
    if n > 0 { OnesBelow(n / 2, width - 1); }
  }

  lemma {:induction false} OnesRead(n: nat, lo: nat, width: nat)
    requires n < Power(width)
    ensures Field(Shifted(Ones(n), lo), lo, width) == n
    decreases width
  {
    if width > 0 {
      var rest := Shifted(Ones(n / 2), lo + 1);
      OnesSplit(n, lo);
      FieldOf(Shifted(Ones(n), lo), rest, lo + 1, width - 1);
      OnesRead(n / 2, lo + 1, width - 1);
    }
  }

  lemma OnesSplit(n: nat, lo: nat)
    ensures lo in Shifted(Ones(n), lo) <==> n % 2 == 1
    ensures forall i :: i > lo ==> (i in Shifted(Ones(n), lo) <==> i in Shifted(Ones(n / 2), lo + 1))
  {
    if n > 0 {
      var half := Ones(n / 2);
      assert Ones(n) == (if n % 2 == 1 then {0} else {}) + Shifted(half, 1);
      forall i | i > lo ensures i in Shifted(Ones(n), lo) <==> i in Shifted(half, lo + 1) {
        if i in Shifted(half, lo + 1) {
          assert i - lo - 1 in half && i - lo in Shifted(half, 1);
        }
      }
    }
  }

  // ---- wrap registers ----

  lemma FiveBits()
    ensures Power(5) == 32
  {
    assert Power(1) == 2 && Power(3) == 8;
  }

  /** A register whose five places from `lo` on are those of n reads n there. */
  lemma ReadsBack(b: Bits, n: nat, lo: nat)
    requires n < 32 && forall i :: lo <= i < lo + 5 ==> (i in b <==> i in Shifted(Ones(n), lo))
    ensures Field(b, lo, 5) == n
  {
    FiveBits();
    FieldOf(b, Shifted(Ones(n), lo), lo, 5);
    OnesRead(n, lo, 5);
  }

  /** Where a directive may stand for its register field to hold it. */
  lemma DirectiveBits(line: Line, n: nat)
    requires n <= 32
    ensures line.WrapTarget? && n < 32 ==> forall i :: i in RegisterBits(line, n) ==> 7 <= i < 12
    ensures line.Wrap? ==> forall i :: i in RegisterBits(line, n) ==> 12 <= i < 17
    ensures !line.WrapTarget? && !line.Wrap? ==> RegisterBits(line, n) == {}
  {
    FiveBits();
    if n < 32 { OnesBelow(n, 5); }
    if n > 0 { OnesBelow(n - 1, 5); }
  }

  /** Line k is the only one of its kind in a program that fits the 32-word memory. */
  predicate Only(body: Body, k: nat, kind: Line)
    requires k < |body|
  {
    body[k] == kind && forall i :: 0 <= i < |body| && body[i] == kind ==> i == k
  }

  predicate FitsMemory(body: Body) {
    && Count(body) <= 32
    && forall i :: 0 <= i < |body| && body[i].WrapTarget? ==> Count(body[..i]) < 32
  }

  lemma PrefixFits(body: Body, m: nat)
    requires m < |body| && FitsMemory(body)
    ensures Count(body[..m]) <= 32 && (body[m].WrapTarget? ==> Count(body[..m]) < 32)
  {
    CountGrows(body, m, |body|);
    assert body[..|body|] == body;
  }

  lemma {:induction false} PlacesUsed(body: Body, m: nat)
    requires m <= |body| && FitsMemory(body)
    ensures forall i :: i in Registers(body[..m]) ==> 7 <= i < 17
    ensures (forall k :: 0 <= k < m ==> !body[k].WrapTarget?) ==> forall i :: i in Registers(body[..m]) ==> 12 <= i
    ensures (forall k :: 0 <= k < m ==> !body[k].Wrap?) ==> forall i :: i in Registers(body[..m]) ==> i < 12
  {
    if m > 0 {
      Snoc(body, m - 1);
      PlacesUsed(body, m - 1);
      PrefixFits(body, m - 1);
      DirectiveBits(body[m - 1], Count(body[..m - 1]));
    }
  }

  /** Two registers agree from place `lo` on. */
  predicate SameFrom(a: Bits, b: Bits, lo: nat) {
    (forall i :: i in a && i >= lo ==> i in b) && forall i :: i in b && i >= lo ==> i in a
  }

  /** ...and below place `hi`. */
  predicate SameBelow(a: Bits, b: Bits, hi: nat) {
    (forall i :: i in a && i < hi ==> i in b) && forall i :: i in b && i < hi ==> i in a
  }

  /** A line that is no wrap_target() leaves the bottom places alone. */
  lemma OtherLineKeepsBottom(body: Body, m: nat)
    requires 0 < m <= |body| && FitsMemory(body) && !body[m - 1].WrapTarget?
    ensures SameBelow(Registers(body[..m]), Registers(body[..m - 1]), 12)
  {
    Snoc(body, m - 1);
    PrefixFits(body, m - 1);
    DirectiveBits(body[m - 1], Count(body[..m - 1]));
  }

  lemma FirstTargetSetsBottom(body: Body, k: nat)
    requires k < |body| && FitsMemory(body) && Only(body, k, WrapTarget)
    ensures SameBelow(Registers(body[..k + 1]), Shifted(Ones(Count(body[..k])), 7), 12)
  {
    Snoc(body, k);
    assert Registers(body[..k + 1]) == Registers(body[..k]) + Shifted(Ones(Count(body[..k])), 7);
    forall j | 0 <= j < k ensures !body[j].WrapTarget? { assert body[j] != Line.WrapTarget; }
    PlacesUsed(body, k);
  }

  lemma SameBelowTwice(a: Bits, b: Bits, c: Bits, hi: nat)
    requires SameBelow(a, b, hi) && SameBelow(b, c, hi)
    ensures SameBelow(a, c, hi)
  {
  }

  lemma {:induction false} BottomPlaces(body: Body, k: nat, m: nat)
    requires k < m <= |body| && FitsMemory(body) && Only(body, k, WrapTarget)
    ensures SameBelow(Registers(body[..m]), Shifted(Ones(Count(body[..k])), 7), 12)
    decreases m
  {
    if k < m - 1 {
      BottomPlaces(body, k, m - 1);
      assert body[m - 1] != Line.WrapTarget;
      OtherLineKeepsBottom(body, m);
      SameBelowTwice(Registers(body[..m]), Registers(body[..m - 1]), Shifted(Ones(Count(body[..k])), 7), 12);
    } else {
      FirstTargetSetsBottom(body, k);
      assert m == k + 1;
    }
  }

  /** A line that is no wrap() leaves the top places alone. */
  lemma OtherLineKeepsTop(body: Body, m: nat)
    requires 0 < m <= |body| && FitsMemory(body) && !body[m - 1].Wrap?
    ensures SameFrom(Registers(body[..m]), Registers(body[..m - 1]), 12)
  {
    Snoc(body, m - 1);
    PrefixFits(body, m - 1);
    DirectiveBits(body[m - 1], Count(body[..m - 1]));
  }

  lemma FirstWrapSetsTop(body: Body, k: nat)
    requires k < |body| && FitsMemory(body) && Only(body, k, Wrap) && Count(body[..k]) > 0
    ensures SameFrom(Registers(body[..k + 1]), Shifted(Ones(Count(body[..k]) - 1), 12), 12)
  {
    Snoc(body, k);
    assert Registers(body[..k + 1]) == Registers(body[..k]) + Shifted(Ones(Count(body[..k]) - 1), 12);
    forall j | 0 <= j < k ensures !body[j].Wrap? { assert body[j] != Line.Wrap; }
    PlacesUsed(body, k);
  }

  lemma SameFromTwice(a: Bits, b: Bits, c: Bits, lo: nat)
    requires SameFrom(a, b, lo) && SameFrom(b, c, lo)
    ensures SameFrom(a, c, lo)
  {
  }

  lemma TopStays(body: Body, m: nat, top: Bits)
    requires 0 < m <= |body| && FitsMemory(body) && !body[m - 1].Wrap?
    requires SameFrom(Registers(body[..m - 1]), top, 12)
    ensures SameFrom(Registers(body[..m]), top, 12)
  {
    OtherLineKeepsTop(body, m);
    SameFromTwice(Registers(body[..m]), Registers(body[..m - 1]), top, 12);
  }

  lemma {:induction false} TopPlaces(body: Body, k: nat, m: nat)
    requires k < m <= |body| && FitsMemory(body) && Only(body, k, Wrap) && Count(body[..k]) > 0
    ensures SameFrom(Registers(body[..m]), Shifted(Ones(Count(body[..k]) - 1), 12), 12)
    decreases m
  {
    if k < m - 1 {
      TopPlaces(body, k, m - 1);
      TopStays(body, m, Shifted(Ones(Count(body[..k]) - 1), 12));
    } else {
      FirstWrapSetsTop(body, k);
      assert m == k + 1;
    }
  }

  lemma {:induction false} HasWrapMeans(body: Body)
    ensures HasWrap(body) <==> exists k :: 0 <= k < |body| && body[k].Wrap?
  {
    if body != [] {
      HasWrapMeans(Front(body));
      if exists k :: 0 <= k < |body| && body[k].Wrap? {
        var k :| 0 <= k < |body| && body[k].Wrap?;
        assert k < |body| - 1 ==> Front(body)[k].Wrap?;
      }
      if HasWrap(Front(body)) {
        var k :| 0 <= k < |Front(body)| && Front(body)[k].Wrap?;
        assert body[k].Wrap?;
      }
    }
  }

  /** The wrap target is the instruction after the one wrap_target(), the first one without. */
  lemma WrapTargetIs(body: Body, pins: word, sidePindir: bool, k: nat)
    requires FitsMemory(body)
    requires if k < |body| then Only(body, k, WrapTarget) else forall i :: 0 <= i < |body| ==> !body[i].WrapTarget?
    ensures Field(Control(body, pins, sidePindir), 7, 5) == if k < |body| then Count(body[..k]) else 0
  {
    var n := if k < |body| then Count(body[..k]) else 0;
    DirectiveBits(Line.Wrap, Count(body));
    assert body[..|body|] == body;
    PlacesUsed(body, |body|);
    if k < |body| { BottomPlaces(body, k, |body|); }
    ReadsBack(Control(body, pins, sidePindir), n, 7);
  }

  /** Bits 12 to 16 come from the wrap() directives, or from the default when there is none. */
  lemma WrapPlaces(body: Body, pins: word, sidePindir: bool, i: nat)
    requires 12 <= i < 17
    ensures i in Control(body, pins, sidePindir) <==>
              i in Registers(body) || (!HasWrap(body) && i in RegisterBits(Line.Wrap, Count(body)))
  {
  }

  /** The program wraps after the instruction before the one wrap(). */
  lemma WrapIs(body: Body, pins: word, sidePindir: bool, k: nat)
    requires FitsMemory(body) && Legal0(body) && k < |body| && Only(body, k, Wrap)
    ensures Field(Control(body, pins, sidePindir), 12, 5) == Count(body[..k]) - 1
  {
    var n := Count(body[..k]) - 1;
    assert body[..|body|] == body;
    HasWrapMeans(body);
    assert Fine0(body, k);
    CountGrows(body, k, |body|);
    TopPlaces(body, k, |body|);
    WrapPlacesAre(body, pins, sidePindir, n);
    ReadsBack(Control(body, pins, sidePindir), n, 12);
  }

  lemma WrapPlacesAre(body: Body, pins: word, sidePindir: bool, n: nat)
    requires HasWrap(body) && SameFrom(Registers(body), Shifted(Ones(n), 12), 12)
    ensures forall i :: 12 <= i < 17 ==> (i in Control(body, pins, sidePindir) <==> i in Shifted(Ones(n), 12))
  {
    forall i | 12 <= i < 17 ensures i in Control(body, pins, sidePindir) <==> i in Shifted(Ones(n), 12) {
      WrapPlaces(body, pins, sidePindir, i);
    }
  }

  /** Without one it wraps after the last instruction. */
  lemma WrapIsLast(body: Body, pins: word, sidePindir: bool)
    requires FitsMemory(body) && Count(body) > 0 && forall i :: 0 <= i < |body| ==> !body[i].Wrap?
    ensures Field(Control(body, pins, sidePindir), 12, 5) == Count(body) - 1
  {
    assert body[..|body|] == body;
    HasWrapMeans(body);
    PlacesUsed(body, |body|);
    forall i | 12 <= i < 17
      ensures i in Control(body, pins, sidePindir) <==> i in Shifted(Ones(Count(body) - 1), 12)
    {
      WrapPlaces(body, pins, sidePindir, i);
    }
    ReadsBack(Control(body, pins, sidePindir), Count(body) - 1, 12);
  }

  /** The two flags in the same register. */
  lemma FlagsAre(body: Body, pins: word, sidePindir: bool)
    requires FitsMemory(body)
    ensures 29 in Control(body, pins, sidePindir) <==> sidePindir
    ensures 30 in Control(body, pins, sidePindir) <==> Optional(body, pins)
  {
    assert body[..|body|] == body;
    PlacesUsed(body, |body|);
    DirectiveBits(Line.Wrap, Count(body));
  }
}
