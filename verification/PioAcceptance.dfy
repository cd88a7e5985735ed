/**
 Which programs the assembler accepts, said of the lines themselves: no pass, no label table, no
 word arithmetic.
 */
module PioAcceptance {
  import opened Wrappers
  import opened PioEncoding
  import opened PioAssembler

  predicate LabelsDiffer(body: Body) {
    forall i, j :: 0 <= i < j < |body| && body[i].Label? && body[j].Label? ==> body[i].name != body[j].name
  }

  predicate WrapsFollow(body: Body) {
    forall k :: 0 <= k < |body| && body[k].Wrap? ==> exists i :: 0 <= i < k && body[i].Instr?
  }

  predicate CountFits(op: Op) {
    (op.In? ==> 1 <= op.count as int <= 32) && (op.Out? ==> 1 <= op.bits as int <= 32)
  }

  predicate CountsFit(body: Body) {
    forall k :: 0 <= k < |body| && body[k].Instr? ==>
      CountFits(body[k].op)
  }

  predicate HasLabel(body: Body, name: string) { exists j :: 0 <= j < |body| && body[j] == Label(name) }

  predicate TargetsExist(body: Body) {
    forall k :: 0 <= k < |body| && body[k].Instr? && Target(body[k].op).Some? ==> HasLabel(body, Target(body[k].op).value)
  }

  function Pow2(n: nat): nat { if n == 0 then 1 else 2 * Pow2(n - 1) }

  predicate SomeWithoutSide(body: Body) {
    exists k :: 0 <= k < |body| && body[k].Instr? && body[k].side.None?
  }

  /** The bits of an instruction that side-set takes: one for each pin, and one more if an instruction
      does without. */
  function SideBitsUsed(body: Body, pins: nat): nat {
    if pins > 0 && SomeWithoutSide(body) then pins + 1 else pins
  }

  predicate SidesFit(body: Body, pins: nat) {
    forall k :: 0 <= k < |body| && body[k].Instr? && body[k].side.Some? ==>
      pins > 0 && body[k].side.value as nat < Pow2(SideBitsUsed(body, pins))
  }

  /** Of five bits, side-set leaves the others for delays. */
  predicate DelaysFit(body: Body, pins: nat) {
    forall k :: 0 <= k < |body| && body[k].Instr? && body[k].delay.Some? ==>
      (body[k].delay.value as nat + 1) * Pow2(SideBitsUsed(body, pins)) <= 32
      || body[k].delay.value == 0
  }

  // ---- the passes say the same ----

  lemma {:induction false} CountIsSome(body: Body)
    ensures Count(body) > 0 <==> exists i :: 0 <= i < |body| && body[i].Instr?
  {
    if body != [] {
      CountIsSome(Front(body));
      assert forall i :: 0 <= i < |body| - 1 ==> Front(body)[i] == body[i];
      if exists i :: 0 <= i < |body| && body[i].Instr? {
        var i :| 0 <= i < |body| && body[i].Instr?;
        assert i < |body| - 1 ==> Front(body)[i].Instr?;
      }
    }
  }

  lemma {:induction false} LabelsAreLines(body: Body, name: string)
    ensures name in Labels(body) <==> HasLabel(body, name)
  {
    if body != [] {
      LabelsAreLines(Front(body), name);
      assert forall i :: 0 <= i < |body| - 1 ==> Front(body)[i] == body[i];
      if HasLabel(body, name) {
        var j :| 0 <= j < |body| && body[j] == Label(name);
        assert j < |body| - 1 ==> Front(body)[j] == Label(name);
      }
      if HasLabel(Front(body), name) {
        var j :| 0 <= j < |Front(body)| && Front(body)[j] == Label(name);
        assert body[j] == Label(name);
      }
    }
  }

  lemma {:induction false} SidesAreAll(body: Body)
    ensures Sides(body) != Count(body) <==> SomeWithoutSide(body)
  {
    if body != [] {
      SidesAreAll(Front(body));
      assert forall i :: 0 <= i < |body| - 1 ==> Front(body)[i] == body[i];
      if SomeWithoutSide(body) {
        var k :| 0 <= k < |body| && body[k].Instr? && body[k].side.None?;
        assert k < |body| - 1 ==> Front(body)[k].Instr? && Front(body)[k].side.None?;
      }
    }
  }

  lemma Powers()
    ensures Pow2(0) == 1 && Pow2(1) == 2 && Pow2(2) == 4 && Pow2(3) == 8 && Pow2(4) == 16 && Pow2(5) == 32 && Pow2(6) == 64
  {
  }

  lemma SpanIsPower(s: word, v: word)
    requires s <= 6
    ensures v < 1 << s <==> v as nat < Pow2(s as nat)
  {
    Powers();
    if s == 0 { } else if s == 1 { } else if s == 2 { } else if s == 3 { } else if s == 4 { } else if s == 5 { }
  }

  lemma RoomIsPower(s: word, v: word)
    requires s <= 6
    ensures v <= Room(s) <==> (v as nat + 1) * Pow2(s as nat) <= 32 || v == 0
  {
    Powers();
    if s == 0 { } else if s == 1 { } else if s == 2 { } else if s == 3 { } else if s == 4 { } else if s == 5 { }
  }

  // ---- line by line ----

  lemma LabelsBefore(body: Body, k: nat)
    requires k < |body| && body[k].Label?
    ensures Fine0(body, k) <==> forall i :: 0 <= i < k && body[i].Label? ==> body[i].name != body[k].name
  {
    LabelsAreLines(body[..k], body[k].name);
    if HasLabel(body[..k], body[k].name) {
      var j :| 0 <= j < k && body[..k][j] == Label(body[k].name);
      assert body[j].Label? && body[j].name == body[k].name;
    }
    if i :| 0 <= i < k && body[i].Label? && body[i].name == body[k].name {
      assert body[..k][i] == Label(body[k].name);
    }
  }

  lemma InstructionsBefore(body: Body, k: nat)
    requires k < |body| && body[k].Wrap?
    ensures Fine0(body, k) <==> exists i :: 0 <= i < k && body[i].Instr?
  {
    CountIsSome(body[..k]);
    if i :| 0 <= i < k && body[i].Instr? { assert body[..k][i].Instr?; }
    if i :| 0 <= i < |body[..k]| && body[..k][i].Instr? { assert body[i].Instr?; }
  }

  lemma CountFitsIff(op: Op)
    ensures CountFine(op) <==> CountFits(op)
  {
  }

  lemma FirstPassIff(body: Body)
    ensures Legal0(body) <==> LabelsDiffer(body) && WrapsFollow(body) && CountsFit(body)
  {
    forall k | 0 <= k < |body|
      ensures body[k].Label? ==>
                (Fine0(body, k) <==> forall i :: 0 <= i < k && body[i].Label? ==> body[i].name != body[k].name)
      ensures body[k].Wrap? ==> (Fine0(body, k) <==> exists i :: 0 <= i < k && body[i].Instr?)
      ensures body[k].Instr? ==> (Fine0(body, k) <==> CountFits(body[k].op))
    {
      if body[k].Label? { LabelsBefore(body, k); }
      if body[k].Wrap? { InstructionsBefore(body, k); }
      if body[k].Instr? { CountFitsIff(body[k].op); }
    }
    if Legal0(body) {
      assert forall k :: 0 <= k < |body| ==> Fine0(body, k);
    }
  }

  /** What the second pass asks of an instruction. */
  predicate FieldsFit(body: Body, line: Line, pins: nat)
    requires line.Instr?
  {
    && (Target(line.op).Some? ==> HasLabel(body, Target(line.op).value))
    && (line.side.Some? ==> pins > 0 && line.side.value as nat < Pow2(SideBitsUsed(body, pins)))
    && (line.delay.Some? ==>
          (line.delay.value as nat + 1) * Pow2(SideBitsUsed(body, pins)) <= 32 || line.delay.value == 0)
  }

  lemma FieldsFitIff(body: Body, line: Line, pins: word)
    requires pins <= 5 && line.Instr?
    ensures var s := SideCount(pins, Optional(body, pins));
            s <= MAX_SIDE && (FieldsFine(Target(line.op), line.side, line.delay, Labels(body), s) <==> FieldsFit(body, line, pins as nat))
  {
    var s, n := SideCount(pins, Optional(body, pins)), SideBitsUsed(body, pins as nat);
    SideCountIs(body, pins);
    TargetFits(body, Target(line.op));
    SideFits(line.side, s, n);
    DelayFits(line.delay, s, n);
  }

  lemma TargetFits(body: Body, target: Option<string>)
    ensures TargetFine(target, Labels(body)) <==> (target.Some? ==> HasLabel(body, target.value))
  {
    if target.Some? { LabelsAreLines(body, target.value); }
  }

  lemma SideFits(side: Option<word>, s: word, n: nat)
    requires s <= MAX_SIDE && s as nat == n
    ensures SideFine(side, s) <==> (side.Some? ==> n > 0 && side.value as nat < Pow2(n))
  {
    if side.Some? { SpanIsPower(s, side.value); }
  }

  lemma DelayFits(delay: Option<word>, s: word, n: nat)
    requires s <= MAX_SIDE && s as nat == n
    ensures DelayFine(delay, Room(s)) <==> (delay.Some? ==> (delay.value as nat + 1) * Pow2(n) <= 32 || delay.value == 0)
  {
    if delay.Some? { RoomIsPower(s, delay.value); }
  }

  lemma SideCountIs(body: Body, pins: word)
    requires pins <= 5
    ensures var s := SideCount(pins, Optional(body, pins));
            s <= MAX_SIDE && s as nat == SideBitsUsed(body, pins as nat) && (s as nat > 0 <==> pins as nat > 0)
  {
    SidesAreAll(body);
  }

  lemma SecondPassIff(body: Body, pins: word)
    requires pins <= 5
    ensures Legal1(body, Labels(body), SideCount(pins, Optional(body, pins)))
       <==> TargetsExist(body) && SidesFit(body, pins as nat) && DelaysFit(body, pins as nat)
  {
    forall k | 0 <= k < |body| && body[k].Instr?
      ensures Fine1(body, k, Labels(body), SideCount(pins, Optional(body, pins))) <==> FieldsFit(body, body[k], pins as nat)
    {
      FieldsFitIff(body, body[k], pins);
    }
  }

  /** A program is accepted exactly when its labels differ, no wrap() comes before the first
      instruction, shift counts are 1 to 32, every label jumped to has its line, every side value fits
      the bits and every delay the bits that are left. */
  lemma AcceptedIff(body: Body, pins: word)
    requires pins <= 5
    ensures Accepted(body, pins) <==>
              && LabelsDiffer(body) && WrapsFollow(body) && CountsFit(body)
              && TargetsExist(body) && SidesFit(body, pins as nat) && DelaysFit(body, pins as nat)
  {
    FirstPassIff(body);
    SecondPassIff(body, pins);
  }
}
