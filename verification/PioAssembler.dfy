/**
 The two-pass PIO assembler: the decorated function runs twice against the same emitter, first
 to find where the labels are and whether side-set is optional, then to emit the words.

 A program is the list of calls the function makes, the same in both passes. `PioAsmEmit` is
 the emitter; the functions above it say what a pass over a list of lines amounts to.
 */
module PioAssembler {
  import opened Wrappers
  import opened PioEncoding

  /** Longer programs overflow the array of 16-bit words. */
  const MAX_LINES: nat := 0xFFFF

  /** Side-set bits at most: five pins and the enable bit. */
  const MAX_SIDE: word := 6

  datatype Line =
    | Label(name: string)
    | WrapTarget
    | Wrap
    | Instr(op: Op, side: Option<word>, delay: Option<word>)

  datatype Error =
    | DelayTooLarge | NoSideset | SidesetTooLarge | DuplicateLabel | UnknownLabel
    | InvalidBitCount | WrapBeforeInstruction

  datatype Outcome = Fine | Raised(error: Error)

  datatype Program = Program(words: seq<word>, execctrl: Bits)

  datatype Result = Assembled(program: Program) | Failed(error: Error)

  type Body = seq<Line>

  // ---- what a pass collects ----

  /** The number of instructions. */
  function Count(body: Body): (n: nat)
    ensures n <= |body|
  {
    if body == [] then 0 else Count(Front(body)) + if Last(body).Instr? then 1 else 0
  }

  /** The number of instructions with a side-set value. */
  function Sides(body: Body): (n: nat)
    ensures n <= Count(body)
  {
    if body == [] then 0
    else Sides(Front(body)) + if Last(body).Instr? && Last(body).side.Some? then 1 else 0
  }

  function Labels(body: Body): map<string, nat> {
    if body == [] then map[]
    else if Last(body).Label? then Labels(Front(body))[Last(body).name := Count(Front(body))]
    else Labels(Front(body))
  }

  function HasWrap(body: Body): bool {
    body != [] && (Last(body).Wrap? || HasWrap(Front(body)))
  }

  /** The ones of a register, by position: the emitter ORs unbounded integers together. */
  type Bits = set<nat>

  function Shifted(b: Bits, places: nat): Bits {
    set i | i in b :: i + places
  }

  function Ones(n: nat): Bits {
    if n == 0 then {} else (if n % 2 == 1 then {0} else {}) + Shifted(Ones(n / 2), 1)
  }

  function RegisterBits(line: Line, n: nat): Bits {
    match line
    case WrapTarget => Shifted(Ones(n), 7)
    case Wrap => if n == 0 then {} else Shifted(Ones(n - 1), 12)
    case _ => {}
  }

  /** The wrap registers as the directives OR them together. */
  function Registers(body: Body): Bits {
    if body == [] then {}
    else Registers(Front(body)) + RegisterBits(Last(body), Count(Front(body)))
  }

  function Address(target: Option<string>, labels: map<string, nat>): word {
    match target
    case None => 0
    case Some(l) => if l in labels && labels[l] <= MAX_LINES then labels[l] as word else 0
  }

  /** The whole word of an instruction line. */
  function Pack(line: Line, labels: map<string, nat>, s: word, optional: bool): word
    requires line.Instr? && s <= MAX_SIDE
  {
    OrFields(Base(line.op), Address(Target(line.op), labels),
             SideBits(line.side, s, optional), DelayBits(line.delay))
  }

  function Words(body: Body, labels: map<string, nat>, s: word, optional: bool): (r: seq<word>)
    requires s <= MAX_SIDE
    ensures |r| == Count(body)
  {
    if body == [] then []
    else
      Words(Front(body), labels, s, optional) +
      if Last(body).Instr? then [Pack(Last(body), labels, s, optional)] else []
  }

  // ---- what a pass refuses ----

  /** Line k goes through the first pass. */
  predicate Fine0(body: Body, k: nat)
    requires k < |body|
  {
    match body[k]
    case Label(name) => name !in Labels(body[..k])
    case WrapTarget => true
    case Wrap => Count(body[..k]) > 0
    case Instr(op, _, _) => CountFine(op)
  }

  predicate SideFine(side: Option<word>, s: word)
    requires s <= MAX_SIDE
  {
    side.Some? ==> s != 0 && side.value < 1 << s
  }

  predicate DelayFine(delay: Option<word>, max: word) {
    delay.Some? ==> delay.value <= max
  }

  predicate TargetFine(target: Option<string>, labels: map<string, nat>) {
    target.Some? ==> target.value in labels
  }

  predicate FieldsFine(target: Option<string>, side: Option<word>, delay: Option<word>,
                       labels: map<string, nat>, s: word)
    requires s <= MAX_SIDE
  {
    && TargetFine(target, labels) && SideFine(side, s) && DelayFine(delay, Room(s))
  }

  /** Line k goes through the second pass too. */
  predicate Fine1(body: Body, k: nat, labels: map<string, nat>, s: word)
    requires k < |body| && s <= MAX_SIDE
  {
    match body[k]
    case Instr(op, side, delay) => FieldsFine(Target(op), side, delay, labels, s)
    case _ => true
  }

  /** Line k goes through this pass. */
  predicate FineIn(body: Body, k: nat, pass: nat, s: word)
    requires k < |body| && s <= MAX_SIDE
  {
    if pass == 0 then Fine0(body, k) else Fine1(body, k, Labels(body), s)
  }

  predicate Legal0(body: Body) { forall k :: 0 <= k < |body| ==> Fine0(body, k) }

  predicate Legal1(body: Body, labels: map<string, nat>, s: word)
    requires s <= MAX_SIDE
  {
    forall k :: 0 <= k < |body| ==> Fine1(body, k, labels, s)
  }

  lemma LegalIn(body: Body, pass: nat, s: word)
    requires s <= MAX_SIDE
    ensures (forall k :: 0 <= k < |body| ==> FineIn(body, k, pass, s)) <==>
              if pass == 0 then Legal0(body) else Legal1(body, Labels(body), s)
  {
    if pass == 0 {
      assert forall k :: 0 <= k < |body| ==> FineIn(body, k, pass, s) == Fine0(body, k);
    } else {
      assert forall k :: 0 <= k < |body| ==> FineIn(body, k, pass, s) == Fine1(body, k, Labels(body), s);
    }
  }

  lemma Snoc(body: Body, k: nat)
    requires k < |body|
    ensures body[..k + 1] != [] && Front(body[..k + 1]) == body[..k] && Last(body[..k + 1]) == body[k]
  {
  }

  /** What one more line adds to everything a pass collects. */
  lemma OneMoreLine(body: Body, k: nat, labels: map<string, nat>, s: word, optional: bool)
    requires k < |body| <= MAX_LINES && s <= MAX_SIDE
    ensures var n, line := Count(body[..k]), body[k];
            && Count(body[..k + 1]) == n + (if line.Instr? then 1 else 0)
            && Sides(body[..k + 1]) == Sides(body[..k]) + (if line.Instr? && line.side.Some? then 1 else 0)
            && Labels(body[..k + 1]) == (if line.Label? then Labels(body[..k])[line.name := n] else Labels(body[..k]))
            && HasWrap(body[..k + 1]) == (line.Wrap? || HasWrap(body[..k]))
            && Registers(body[..k + 1]) == Registers(body[..k]) + RegisterBits(line, n)
            && Words(body[..k + 1], labels, s, optional) ==
                 Words(body[..k], labels, s, optional) + (if line.Instr? then [Pack(line, labels, s, optional)] else [])
  {
    Snoc(body, k);
  }

  /** What the lines of a pass change. */
  datatype Progress = Progress(numInstr: nat, numSideset: nat, execctrl: Bits, wrapUsed: bool,
                               labels: map<string, nat>, words: seq<word>)

  /** The state after the first k lines of a pass that began with `control` in EXECCTRL. */
  ghost predicate At(p: Progress, body: Body, k: nat, control: Bits, pass: nat, s: word, optional: bool)
    requires k <= |body| <= MAX_LINES && s <= MAX_SIDE
  {
    && p.numInstr == Count(body[..k]) && p.numSideset == Sides(body[..k])
    && p.execctrl == control + Registers(body[..k])
    && (pass == 0 ==> p.labels == Labels(body[..k]) && p.words == [] && p.wrapUsed == HasWrap(body[..k]))
    && (pass > 0 ==> p.labels == Labels(body) && p.words == Words(body[..k], p.labels, s, optional))
  }

  lemma AtLabel(p: Progress, body: Body, k: nat, control: Bits, pass: nat, s: word, optional: bool)
    requires k < |body| <= MAX_LINES && s <= MAX_SIDE && At(p, body, k, control, pass, s, optional)
    requires body[k].Label?
    ensures pass == 0 ==> At(p.(labels := p.labels[body[k].name := p.numInstr]), body, k + 1, control, pass, s, optional)
    ensures pass > 0 ==> At(p, body, k + 1, control, pass, s, optional)
  {
    OneMoreLine(body, k, p.labels, s, optional);
  }

  lemma AtDirective(p: Progress, body: Body, k: nat, control: Bits, pass: nat, s: word, optional: bool)
    requires k < |body| <= MAX_LINES && s <= MAX_SIDE && At(p, body, k, control, pass, s, optional)
    requires body[k].WrapTarget? || body[k].Wrap?
    ensures At(p.(execctrl := p.execctrl + RegisterBits(body[k], p.numInstr),
                  wrapUsed := p.wrapUsed || body[k].Wrap?),
               body, k + 1, control, pass, s, optional)
  {
    OneMoreLine(body, k, p.labels, s, optional);
  }

  lemma AtInstr(p: Progress, body: Body, k: nat, control: Bits, pass: nat, s: word, optional: bool)
    requires k < |body| <= MAX_LINES && s <= MAX_SIDE && At(p, body, k, control, pass, s, optional)
    requires body[k].Instr?
    ensures At(p.(numInstr := p.numInstr + 1,
                  numSideset := p.numSideset + if body[k].side.Some? then 1 else 0,
                  words := if pass == 0 then p.words else p.words + [Pack(body[k], p.labels, s, optional)]),
               body, k + 1, control, pass, s, optional)
  {
    OneMoreLine(body, k, p.labels, s, optional);
  }

  // ---- what the two passes come to ----

  /** Side-set is optional when some instruction goes without. */
  predicate Optional(body: Body, pins: word) {
    pins > 0 && Sides(body) != Count(body)
  }

  /** Side-set bits, the enable bit included. */
  function SideCount(pins: word, optional: bool): word {
    if optional then pins + 1 else pins
  }

  predicate Accepted(body: Body, pins: word)
    requires pins <= 5
  {
    Legal0(body) && Legal1(body, Labels(body), SideCount(pins, Optional(body, pins)))
  }

  function Code(body: Body, pins: word): seq<word>
    requires pins <= 5
  {
    var optional := Optional(body, pins);
    Words(body, Labels(body), SideCount(pins, optional), optional)
  }

  /** EXECCTRL between the passes: the wrap a program without one gets, and the enable bit. */
  function Closed(control: Bits, wrapUsed: bool, count: nat, optional: bool): Bits {
    control + (if wrapUsed then {} else RegisterBits(Line.Wrap, count)) + (if optional then {30} else {})
  }

  function Control(body: Body, pins: word, sidePindir: bool): Bits {
    Closed((if sidePindir then {29} else {}) + Registers(body), HasWrap(body), Count(body), Optional(body, pins))
  }

  lemma NothingYet(control: Bits)
    ensures control + Registers([]) == control
  {
  }

  /** The directives run again in the second pass, on registers that already have their bits. */
  lemma RepeatedWrapsChangeNothing(body: Body, pins: word, sidePindir: bool)
    ensures Control(body, pins, sidePindir) + Registers(body) == Control(body, pins, sidePindir)
  {
  }

  lemma {:induction false} LabelsAreBounded(body: Body)
    ensures forall l :: l in Labels(body) ==> Labels(body)[l] <= |body|
  {
    if body != [] { LabelsAreBounded(Front(body)); }
  }

  lemma LabelsInReach(p: Progress, body: Body, k: nat, control: Bits, pass: nat, s: word, optional: bool)
    requires k <= |body| <= MAX_LINES && s <= MAX_SIDE && At(p, body, k, control, pass, s, optional)
    ensures forall l :: l in p.labels ==> p.labels[l] <= MAX_LINES
  {
    LabelsAreBounded(body);
    LabelsAreBounded(body[..k]);
  }

  class PioAsmEmit {
    var labels: map<string, nat>
    var words: seq<word>
    var execctrl: Bits
    var wrapUsed: bool
    var sidesetCount: word
    var sidesetOpt: bool
    var delayMax: word
    var pass: nat
    var numInstr: nat
    var numSideset: nat

    /** `pins` is how many pins sideset_init names. */
    constructor (pins: word, sidePindir: bool)
      requires pins <= 5
      ensures labels == map[] && words == [] && !wrapUsed && !sidesetOpt
      ensures sidesetCount == pins && numInstr == 0 && numSideset == 0
      ensures execctrl == if sidePindir then {29} else {}
    {
      labels, words, wrapUsed := map[], [], false;
      execctrl := if sidePindir then {29} else {};
      sidesetCount := pins;
      sidesetOpt, delayMax := false, 31;
      pass, numInstr, numSideset := 0, 0, 0;
    }

    method Wrap() returns (r: Outcome)
      requires numInstr <= MAX_LINES
      modifies this`execctrl, this`wrapUsed
      ensures r.Fine? <==> numInstr > 0
      ensures r.Fine? ==> wrapUsed && execctrl == old(execctrl) + RegisterBits(Line.Wrap, numInstr)
    {
      if numInstr == 0 { return Raised(WrapBeforeInstruction); }
      execctrl := execctrl + Shifted(Ones(numInstr - 1), 12);
      wrapUsed := true;
      return Fine;
    }

    method WrapTarget()
      requires numInstr <= MAX_LINES
      modifies this`execctrl
      ensures execctrl == old(execctrl) + RegisterBits(Line.WrapTarget, numInstr)
    {
      execctrl := execctrl + Shifted(Ones(numInstr), 7);
    }

    method LabelHere(name: string) returns (r: Outcome)
      modifies this`labels
      ensures r.Fine? <==> pass > 0 || name !in old(labels)
      ensures r.Fine? ==> labels == if pass == 0 then old(labels)[name := numInstr] else old(labels)
    {
      if pass == 0 {
        if name in labels { return Raised(DuplicateLabel); }
        labels := labels[name := numInstr];
      }
      return Fine;
    }

    /** word(): count the instruction and, in the second pass, emit it. */
    method EmitWord(instr: word, target: Option<string>) returns (r: Outcome)
      requires forall l :: l in labels ==> labels[l] <= MAX_LINES
      modifies this`numInstr, this`words
      ensures numInstr == old(numInstr) + 1
      ensures r.Fine? <==> pass == 0 || TargetFine(target, labels)
      ensures r.Fine? ==> words == if pass == 0 then old(words)
                                   else old(words) + [Or(instr, Address(target, labels))]
    {
      numInstr := numInstr + 1;
      if pass > 0 {
        var address: word := 0;
        if target.Some? {
          if target.value !in labels { return Raised(UnknownLabel); }
          address := labels[target.value] as word;
        }
        words := words + [Or(instr, address)];
      }
      return Fine;
    }

    method Delay(delay: word) returns (r: Outcome)
      requires pass > 0 ==> words != []
      modifies this`words
      ensures r.Fine? <==> pass == 0 || DelayFine(Some(delay), delayMax)
      ensures r.Fine? ==> words == if pass == 0 then old(words)
                                   else Ored(old(words), DelayBits(Some(delay)))
    {
      if pass > 0 {
        if delay > delayMax { return Raised(DelayTooLarge); }
        words := words[|words| - 1 := words[|words| - 1] | (delay << 8)];
      }
      return Fine;
    }

    method Side(value: word) returns (r: Outcome)
      requires pass > 0 ==> words != []
      requires sidesetCount <= MAX_SIDE
      modifies this`words, this`numSideset
      ensures numSideset == old(numSideset) + 1
      ensures r.Fine? <==> pass == 0 || SideFine(Some(value), sidesetCount)
      ensures r.Fine? ==> words == if pass == 0 then old(words)
                                   else Ored(old(words), SideBits(Some(value), sidesetCount, sidesetOpt))
    {
      numSideset := numSideset + 1;
      if pass > 0 {
        if sidesetCount == 0 { return Raised(NoSideset); }
        if value >= 1 << sidesetCount { return Raised(SidesetTooLarge); }
        words := words[|words| - 1 := words[|words| - 1] | SideBits(Some(value), sidesetCount, sidesetOpt)];
      }
      return Fine;
    }

    ghost function Seen(): (p: Progress)
      reads this
    {
      Progress(numInstr, numSideset, execctrl, wrapUsed, labels, words)
    }

    ghost predicate Reached(body: Body, k: nat, control: Bits)
      requires k <= |body| <= MAX_LINES
      reads this
    {
      && sidesetCount <= MAX_SIDE
      && (pass > 0 ==> delayMax == Room(sidesetCount))
      && At(Seen(), body, k, control, pass, sidesetCount, sidesetOpt)
    }

    /** word(), then .side(). */
    method RunSided(instr: word, target: Option<string>, side: Option<word>) returns (r: Outcome)
      requires sidesetCount <= MAX_SIDE && forall l :: l in labels ==> labels[l] <= MAX_LINES
      modifies this`numInstr, this`numSideset, this`words
      ensures pass == 0 ==> r.Fine? && words == old(words)
      ensures pass > 0 ==> (r.Fine? <==> TargetFine(target, labels) && SideFine(side, sidesetCount))
      ensures numInstr == old(numInstr) + 1
      ensures r.Fine? ==> numSideset == old(numSideset) + if side.Some? then 1 else 0
      ensures r.Fine? && pass > 0 ==>
                words == old(words) + [WithSide(Or(instr, Address(target, labels)), side, sidesetCount, sidesetOpt)]
    {
      if side.Some? {
        OredLast(words, Or(instr, Address(target, labels)), SideBits(Some(side.value), sidesetCount, sidesetOpt));
      }
      r := EmitWord(instr, target);
      if r.Fine? && side.Some? {
        r := Side(side.value);
      }
    }

    /** ...then [delay]. */
    method RunFields(instr: word, target: Option<string>, side: Option<word>, delay: Option<word>)
      returns (r: Outcome)
      requires sidesetCount <= MAX_SIDE && forall l :: l in labels ==> labels[l] <= MAX_LINES
      modifies this`numInstr, this`numSideset, this`words
      ensures pass == 0 ==> r.Fine? && words == old(words)
      ensures pass > 0 ==>
                (r.Fine? <==> TargetFine(target, labels) && SideFine(side, sidesetCount) && DelayFine(delay, delayMax))
      ensures numInstr == old(numInstr) + 1
      ensures r.Fine? ==> numSideset == old(numSideset) + if side.Some? then 1 else 0
      ensures r.Fine? && pass > 0 ==>
                words == old(words) + [WithDelay(WithSide(Or(instr, Address(target, labels)), side,
                                                          sidesetCount, sidesetOpt), delay)]
    {
      ghost var sided := WithSide(Or(instr, Address(target, labels)), side, sidesetCount, sidesetOpt);
      if delay.Some? { OredLast(words, sided, DelayBits(Some(delay.value))); }
      r := RunSided(instr, target, side);
      if r.Fine? && delay.Some? {
        r := Delay(delay.value);
      }
    }

    /** An instruction line. */
    method RunInstr(op: Op, side: Option<word>, delay: Option<word>) returns (r: Outcome)
      requires sidesetCount <= MAX_SIDE && forall l :: l in labels ==> labels[l] <= MAX_LINES
      requires pass > 0 ==> delayMax == Room(sidesetCount)
      modifies this`numInstr, this`numSideset, this`words
      ensures pass == 0 ==> (r.Fine? <==> CountFine(op))
      ensures pass > 0 ==> (r.Fine? <==> CountFine(op) && FieldsFine(Target(op), side, delay, labels, sidesetCount))
      ensures r.Fine? ==> numInstr == old(numInstr) + 1
      ensures r.Fine? ==> numSideset == old(numSideset) + if side.Some? then 1 else 0
      ensures r.Fine? ==> words == if pass == 0 then old(words)
                          else old(words) + [Pack(Instr(op, side, delay), labels, sidesetCount, sidesetOpt)]
    {
      if !CountFine(op) { return Raised(InvalidBitCount); }
      FieldsJoin(Base(op), Address(Target(op), labels), side, delay, sidesetCount, sidesetOpt);
      r := RunFields(Base(op), Target(op), side, delay);
    }

    /** What a line never changes. */
    predicate Frozen(p: nat, s: word, optional: bool, d: word)
      reads this
    {
      pass == p && sidesetCount == s && sidesetOpt == optional && delayMax == d
    }

    method RunLabel(body: Body, k: nat, ghost control: Bits) returns (r: Outcome)
      requires k < |body| <= MAX_LINES && Reached(body, k, control) && body[k].Label?
      modifies this`labels
      ensures pass == 0 || Fine0(body, k) ==> (r.Fine? <==> FineIn(body, k, pass, sidesetCount))
      ensures r.Fine? ==> Reached(body, k + 1, control)
    {
      AtLabel(Seen(), body, k, control, pass, sidesetCount, sidesetOpt);
      r := LabelHere(body[k].name);
    }

    /** wrap() or wrap_target(). */
    method RunDirective(line: Line) returns (r: Outcome)
      requires numInstr <= MAX_LINES && (line.WrapTarget? || line.Wrap?)
      modifies this`execctrl, this`wrapUsed
      ensures r.Fine? <==> line.WrapTarget? || numInstr > 0
      ensures r.Fine? ==> execctrl == old(execctrl) + RegisterBits(line, numInstr)
      ensures r.Fine? ==> wrapUsed == (old(wrapUsed) || line.Wrap?)
    {
      if line.WrapTarget? {
        WrapTarget();
        r := Fine;
      } else {
        r := Wrap();
      }
    }

    method RunDirectiveLine(body: Body, k: nat, ghost control: Bits) returns (r: Outcome)
      requires k < |body| <= MAX_LINES && Reached(body, k, control) && (body[k].WrapTarget? || body[k].Wrap?)
      modifies this`execctrl, this`wrapUsed
      ensures r.Fine? <==> Fine0(body, k)
      ensures r.Fine? ==> Reached(body, k + 1, control)
    {
      AtDirective(Seen(), body, k, control, pass, sidesetCount, sidesetOpt);
      r := RunDirective(body[k]);
    }

    method RunInstrLine(body: Body, k: nat, ghost control: Bits) returns (r: Outcome)
      requires k < |body| <= MAX_LINES && Reached(body, k, control) && body[k].Instr?
      modifies this`numInstr, this`numSideset, this`words
      ensures pass == 0 || Fine0(body, k) ==> (r.Fine? <==> FineIn(body, k, pass, sidesetCount))
      ensures r.Fine? ==> Reached(body, k + 1, control)
    {
      AtInstr(Seen(), body, k, control, pass, sidesetCount, sidesetOpt);
      LabelsInReach(Seen(), body, k, control, pass, sidesetCount, sidesetOpt);
      r := RunInstr(body[k].op, body[k].side, body[k].delay);
    }

    method RunLine(body: Body, k: nat, ghost control: Bits) returns (r: Outcome)
      requires k < |body| <= MAX_LINES && Reached(body, k, control)
      modifies this
      ensures Frozen(old(pass), old(sidesetCount), old(sidesetOpt), old(delayMax))
      ensures pass == 0 || Fine0(body, k) ==> (r.Fine? <==> FineIn(body, k, pass, sidesetCount))
      ensures r.Fine? ==> Reached(body, k + 1, control)
    {
      match body[k]
      case Label(_) => r := RunLabel(body, k, control);
      case Instr(_, _, _) => r := RunInstrLine(body, k, control);
      case _ => r := RunDirectiveLine(body, k, control);
    }

    method RunBody(body: Body, ghost control: Bits) returns (r: Outcome)
      requires |body| <= MAX_LINES && Reached(body, 0, control) && (pass > 0 ==> Legal0(body))
      modifies this
      ensures pass == old(pass) && sidesetCount == old(sidesetCount) && sidesetOpt == old(sidesetOpt)
      ensures r.Fine? <==> if pass == 0 then Legal0(body) else Legal1(body, Labels(body), sidesetCount)
      ensures r.Fine? ==> Reached(body, |body|, control)
    {
      r := Fine;
      LegalIn(body, pass, sidesetCount);
      for k := 0 to |body|
        invariant pass == old(pass) && sidesetCount == old(sidesetCount) && sidesetOpt == old(sidesetOpt)
        invariant Reached(body, k, control) && r.Fine?
        invariant forall i :: 0 <= i < k ==> FineIn(body, i, pass, sidesetCount)
      {
        r := RunLine(body, k, control);
        if r.Raised? {
          assert !FineIn(body, k, pass, sidesetCount);
          return;
        }
      }
    }

    /** A program without wrap() wraps after its last instruction. */
    method CloseWrap()
      requires numInstr <= MAX_LINES
      modifies this`execctrl, this`wrapUsed
      ensures execctrl == old(execctrl) + if old(wrapUsed) then {} else RegisterBits(Line.Wrap, numInstr)
    {
      if !wrapUsed && numInstr > 0 {
        var _ := Wrap();
      }
    }

    /** Side-set is optional when some instruction goes without; the enable bit takes a delay bit. */
    method SettleSideset()
      requires sidesetCount <= 5 && !sidesetOpt
      modifies this`sidesetOpt, this`execctrl, this`sidesetCount, this`delayMax
      ensures sidesetOpt == (old(sidesetCount) > 0 && numSideset != numInstr)
      ensures sidesetCount == SideCount(old(sidesetCount), sidesetOpt) && delayMax == Room(sidesetCount)
      ensures execctrl == old(execctrl) + if sidesetOpt then {30} else {}
    {
      delayMax := 31;
      if sidesetCount > 0 {
        sidesetOpt := numSideset != numInstr;
        if sidesetOpt {
          execctrl := execctrl + {30};
          sidesetCount := sidesetCount + 1;
        }
        delayMax := delayMax >> sidesetCount;
      }
    }

    method StartPass(next: nat)
      requires next <= 1 && numInstr <= MAX_LINES && sidesetCount <= 5 && !sidesetOpt
      modifies this
      ensures pass == next && numInstr == 0 && numSideset == 0
      ensures labels == old(labels) && words == old(words)
      ensures next == 0 ==> sidesetCount == old(sidesetCount) && !sidesetOpt && wrapUsed == old(wrapUsed)
                            && execctrl == old(execctrl)
      ensures next == 1 ==> sidesetOpt == (old(sidesetCount) > 0 && old(numSideset) != old(numInstr))
                            && sidesetCount == SideCount(old(sidesetCount), sidesetOpt)
                            && delayMax == Room(sidesetCount)
                            && execctrl == Closed(old(execctrl), old(wrapUsed), old(numInstr), sidesetOpt)
    {
      if next == 1 {
        CloseWrap();
        SettleSideset();
      }
      pass := next;
      numInstr, numSideset := 0, 0;
    }
  }

  /** What the decorator returns for a body that makes the same calls in both passes. */
  method AsmPio(pins: word, sidePindir: bool, body: Body) returns (r: Result)
    requires pins <= 5 && |body| <= MAX_LINES
    ensures r.Assembled? <==> Accepted(body, pins)
    ensures r.Assembled? ==> r.program == Program(Code(body, pins), Control(body, pins, sidePindir))
  {
    var emit := new PioAsmEmit(pins, sidePindir);
    emit.StartPass(0);
    ghost var control := emit.execctrl;
    NothingYet(control);
    var first := emit.RunBody(body, control);
    if first.Raised? { return Failed(first.error); }
    assert body[..|body|] == body;
    emit.StartPass(1);
    control := emit.execctrl;
    NothingYet(control);
    var second := emit.RunBody(body, control);
    if second.Raised? { return Failed(second.error); }
    RepeatedWrapsChangeNothing(body, pins, sidePindir);
    return Assembled(Program(emit.words, emit.execctrl));
  }
}
