/**
 The instruction words of the RP2040's programmable I/O: how the assembler's methods build a
 word, and an independent decoder written from section 3.4 of the RP2040 datasheet.
 Operands are 16-bit patterns.
 */
module PioEncoding {
  import opened Wrappers

  type word = bv16

  /** What wait() is given as its source: a constant, or the irq instruction by its name. */
  datatype WaitArg = Constant(n: word) | IrqByName

  /** A call of one of the assembler's instruction methods. */
  datatype Op =
    | Word(instr: word, target: Option<string>)
    | Nop
    | Jmp(cond: word, at: string)
    | Wait(polarity: word, source: WaitArg, index: word)
    | In(src: word, count: word)
    | Out(dest: word, bits: word)
    | Push(value: word, value2: word)
    | Pull(value: word, value2: word)
    | Mov(to: word, from: word)
    | Irq(mod: word, number: word)
    | Set(pins: word, data: word)

  // "exec" as the assembler's constant
  const EXEC_DEST: word := 8

  function Target(op: Op): Option<string> {
    match op
    case Word(_, target) => target
    case Jmp(_, at) => Some(at)
    case _ => None
  }

  /** Only shift counts are checked. */
  predicate CountFine(op: Op) {
    match op
    case In(_, count) => 0 < count <= 32
    case Out(_, count) => 0 < count <= 32
    case _ => true
  }

  /** The number wait() puts in the word. */
  function WaitBits(source: WaitArg): word {
    if source == Constant(6) then 1 else if source != Constant(0) then 2 else 0
  }

  function BlockByDefault(value: word): word {
    if value & 1 == 0 then value | 0x20 else value
  }

  /** The word before label, delay and side-set are ORed in. */
  function Base(op: Op): word {
    match op
    case Word(instr, _) => instr
    case Nop => 0xA042
    case Jmp(cond, _) => cond << 5
    case Wait(polarity, source, index) => 0x2000 | (polarity << 7) | (WaitBits(source) << 5) | index
    case In(src, count) => 0x4000 | (src << 5) | (count & 0x1F)
    case Out(dest, count) => 0x6000 | ((if dest == EXEC_DEST then 7 else dest) << 5) | (count & 0x1F)
    case Push(v, w) => 0x8000 | (BlockByDefault(v | w) & 0x60)
    case Pull(v, w) => 0x8080 | (BlockByDefault(v | w) & 0x60)
    case Mov(to, from) => 0xA000 | ((if to == EXEC_DEST then 4 else to) << 5) | from
    case Irq(mod, number) => 0xC000 | (mod & 0x60) | number
    case Set(pins, data) => 0xE000 | (pins << 5) | data
  }

  // ---- the datasheet ----

  datatype WaitSource = Gpio | Pin | IrqFlag | Reserved

  /** An instruction as the hardware executes it. */
  datatype Instruction =
    | JMP(cond: word, addr: word)
    | WAIT(polarity: word, source: WaitSource, index: word)
    | IN(src: word, count: word)
    | OUT(dest: word, bits: word)
    | PUSH(ifFull: bool, block: bool)
    | PULL(ifEmpty: bool, block: bool)
    | MOV(to: word, op: word, from: word)
    | IRQ(clear: bool, wait: bool, index: word)
    | SET(pins: word, data: word)

  function BitCount(field: word): word { if field == 0 then 32 else field }

  /** Bits 6:5 of WAIT. */
  function WaitSourceOf(field: word): WaitSource {
    match field
    case 0 => Gpio
    case 1 => Pin
    case 2 => IrqFlag
    case _ => Reserved
  }

  function Decode(w: word): Instruction {
    var a, b := (w >> 5) & 7, w & 0x1F;
    match (w >> 13) & 7
    case 0 => JMP(a, b)
    case 1 => WAIT((w >> 7) & 1, WaitSourceOf((w >> 5) & 3), b)
    case 2 => IN(a, BitCount(b))
    case 3 => OUT(a, BitCount(b))
    case 4 => if w & 0x80 == 0 then PUSH(w & 0x40 != 0, w & 0x20 != 0)
              else PULL(w & 0x40 != 0, w & 0x20 != 0)
    case 5 => MOV(a, (w >> 3) & 3, w & 7)
    case 6 => IRQ(w & 0x40 != 0, w & 0x20 != 0, b)
    case _ => SET(a, b)
  }

  /** Bits 12:8 hold side-set data above delay; `s` side-set bits include the enable bit. */
  function DecodeDelay(w: word, s: word): word
    requires s <= 5
  {
    ((w >> 8) & 0x1F) & ((1 << (5 - s)) - 1)
  }

  function DecodeSide(w: word, s: word, optional: bool): Option<word>
    requires s <= 5
  {
    var bits := ((w >> 8) & 0x1F) >> (5 - s);
    if s == 0 then None
    else if !optional then Some(bits)
    else if (w >> 12) & 1 == 0 then None
    else Some(bits & ((1 << (s - 1)) - 1))
  }

  // ---- what the programmer asked for ----

  predicate InRange(op: Op) {
    match op
    case Word(instr, target) => instr & 0x1F00 == 0 && (target.Some? ==> instr & 0x1F == 0)
    case Nop => true
    case Jmp(cond, _) => cond < 8
    case Wait(polarity, _, index) => polarity < 2 && index < 32
    case In(src, count) => src < 8 && 0 < count <= 32
    case Out(dest, count) => dest <= EXEC_DEST && 0 < count <= 32
    case Push(_, _) => true
    case Pull(_, _) => true
    case Mov(to, from) => to <= EXEC_DEST && from < 32
    case Irq(_, number) => number < 32
    case Set(pins, data) => pins < 8 && data < 32
  }

  /** What a source is to the programmer: 0 is "gpio", 6 is "pin", and everything else is "irq". */
  function Waited(source: WaitArg): WaitSource {
    match source
    case IrqByName => IrqFlag
    case Constant(n) => if n == 0 then Gpio else if n == 6 then Pin else IrqFlag
  }

  /** The instruction the call stands for, its label being the instruction `addr`. */
  function Meaning(op: Op, addr: word): Instruction {
    match op
    case Word(instr, target) => Decode(if target.Some? then instr + addr else instr)
    case Nop => MOV(2, 0, 2)
    case Jmp(cond, _) => JMP(cond, addr)
    case Wait(polarity, source, index) => WAIT(polarity, Waited(source), index)
    case In(src, count) => IN(src, count)
    case Out(dest, count) => OUT(if dest == EXEC_DEST then 7 else dest, count)
    case Push(v, w) => PUSH((v | w) & 0x40 != 0, (v | w) & 1 == 0 || (v | w) & 0x20 != 0)
    case Pull(v, w) => PULL((v | w) & 0x40 != 0, (v | w) & 1 == 0 || (v | w) & 0x20 != 0)
    case Mov(to, from) => MOV(if to == EXEC_DEST then 4 else to, from >> 3, from & 7)
    case Irq(mod, number) => IRQ(mod & 0x40 != 0, mod & 0x20 != 0, number)
    case Set(pins, data) => SET(pins, data)
  }

  /** The word of an instruction without delay and side-set leaves their field clear and decodes
      to what was asked for. */
  lemma BaseMeans(op: Op, addr: word)
    requires InRange(op) && addr < 32 && (Target(op).None? ==> addr == 0)
    ensures (Base(op) | addr) & 0x1F00 == 0
    ensures Decode(Base(op) | addr) == Meaning(op, addr)
  {
    if op.Word? || op.Jmp? {
      WordMeans(op, addr);
    } else if op.Wait? || op.In? || op.Out? {
      CountMeans(op, addr);
    } else if op.Push? || op.Pull? {
      FifoMeans(op, addr);
    } else if op.Nop? {
    } else if op.Mov? {
      MoveMeans(op, addr);
    } else {
      ImmediateMeans(op, addr);
    }
  }

  lemma WordMeans(op: Op, addr: word)
    requires InRange(op) && addr < 32 && (op.Word? || op.Jmp?) && (Target(op).None? ==> addr == 0)
    ensures (Base(op) | addr) & 0x1F00 == 0 && Decode(Base(op) | addr) == Meaning(op, addr)
  {
  }

  lemma CountMeans(op: Op, addr: word)
    requires InRange(op) && (op.Wait? || op.In? || op.Out?) && addr == 0
    ensures (Base(op) | addr) & 0x1F00 == 0 && Decode(Base(op) | addr) == Meaning(op, addr)
  {
  }

  lemma FifoMeans(op: Op, addr: word)
    requires (op.Push? || op.Pull?) && addr == 0
    ensures (Base(op) | addr) & 0x1F00 == 0 && Decode(Base(op) | addr) == Meaning(op, addr)
  {
  }

  lemma MoveMeans(op: Op, addr: word)
    requires InRange(op) && op.Mov? && addr == 0
    ensures (Base(op) | addr) & 0x1F00 == 0 && Decode(Base(op) | addr) == Meaning(op, addr)
  {
    MoveFields(if op.to == EXEC_DEST then 4 else op.to, op.from);
  }

  lemma MoveFields(to: word, from: word)
    requires to < 8 && from < 32
    ensures var w := 0xA000 | (to << 5) | from | 0; w & 0x1F00 == 0 && Decode(w) == MOV(to, from >> 3, from & 7)
  {
  }

  lemma ImmediateMeans(op: Op, addr: word)
    requires InRange(op) && (op.Irq? || op.Set?) && addr == 0
    ensures (Base(op) | addr) & 0x1F00 == 0 && Decode(Base(op) | addr) == Meaning(op, addr)
  {
  }

  function DelayBits(delay: Option<word>): word {
    if delay.Some? then delay.value << 8 else 0
  }

  function SideBits(side: Option<word>, s: word, optional: bool): word
    requires s <= 13
  {
    if side.Some? then (if optional then 0x1000 else 0) | (side.value << (13 - s)) else 0
  }

  function Or(a: word, b: word): word { a | b }

  /** The largest delay beside s side-set bits. */
  function Room(s: word): word
    requires s <= 15
  {
    31 >> s
  }

  function OrFields(base: word, address: word, side: word, delay: word): word {
    Or(Or(Or(base, address), side), delay)
  }

  /** Further bits of the last word. */
  function Ored(words: seq<word>, bits: word): seq<word>
    requires words != []
  {
    words[|words| - 1 := Or(words[|words| - 1], bits)]
  }

  lemma OredLast(words: seq<word>, last: word, bits: word)
    ensures Ored(words + [last], bits) == words + [Or(last, bits)]
  {
    LastSet(words, last, Or(last, bits));
  }

  lemma LastSet<T>(s: seq<T>, a: T, b: T)
    ensures (s + [a])[|s + [a]| - 1] == a && (s + [a])[|s + [a]| - 1 := b] == s + [b]
  {
  }

  /** A word and the side value and delay it was given, if any. */
  function WithSide(w: word, side: Option<word>, s: word, optional: bool): word
    requires s <= 13
  {
    if side.Some? then Or(w, SideBits(Some(side.value), s, optional)) else w
  }

  function WithDelay(w: word, delay: Option<word>): word {
    if delay.Some? then Or(w, DelayBits(Some(delay.value))) else w
  }

  lemma OrNothing(a: word)
    ensures Or(a, 0) == a
  {
  }

  /** A field that is not given leaves the word as it is. */
  lemma FieldsJoin(base: word, address: word, side: Option<word>, delay: Option<word>, s: word, optional: bool)
    requires s <= 13
    ensures WithDelay(WithSide(Or(base, address), side, s, optional), delay)
         == OrFields(base, address, SideBits(side, s, optional), DelayBits(delay))
  {
    OrNothing(Or(base, address));
    OrNothing(WithSide(Or(base, address), side, s, optional));
  }

  /** The delay and side value of a packed word, beside any instruction. The side value must fit
      the pins, of which an optional side-set has one less than bits. */
  lemma FieldsDecode(base: word, address: word, side: Option<word>, delay: Option<word>, s: word, optional: bool)
    requires (base | address) & 0x1F00 == 0 && s <= 5
    requires delay.Some? ==> delay.value <= 31 >> s
    requires side.Some? ==> s > 0 && side.value < 1 << (if optional then s - 1 else s)
    requires side.None? ==> s == 0 || optional
    ensures var w := OrFields(base, address, SideBits(side, s, optional), DelayBits(delay));
            && DecodeDelay(w, s) == (if delay.Some? then delay.value else 0)
            && DecodeSide(w, s, optional) == side
            && w & 0xE0FF == base | address
  {
  }

  lemma DecodeIgnoresFields(w: word)
    ensures Decode(w & 0xE0FF) == Decode(w)
  {
  }

  /** The check in side() lets one bit too many through when side-set is optional: the value then
      loses its top bit in the enable bit. */
  lemma OptionalSideOverflow(base: word, value: word, s: word)
    requires base & 0x1F00 == 0 && 0 < s <= 5 && value < 1 << s
    ensures var w := base | SideBits(Some(value), s, true);
            (DecodeSide(w, s, true) == Some(value)) <==> value < 1 << (s - 1)
  {
  }

  /** Five optional side-set pins need six bits, and the lowest bit of the value runs into the bit
      below the field: the instruction survives exactly when that bit is clear, or set there
      already, or not looked at (in irq). */
  lemma SixSideBitsCorruptOperand(base: word, value: word)
    requires base & 0x1F00 == 0 && value < 64
    ensures Decode(base | SideBits(Some(value), 6, true)) == Decode(base) <==>
              value & 1 == 0 || base & 0x80 != 0 || base >> 13 == 6
  {
    var w := base | SideBits(Some(value), 6, true);
    SixBitsLeak(base, value, w);
    DecodeIgnoresFields(w);
    BitSevenMatters(base);
  }

  lemma SixBitsLeak(base: word, value: word, w: word)
    requires base & 0x1F00 == 0 && value < 64 && w == base | SideBits(Some(value), 6, true)
    ensures w & 0xE0FF == if value & 1 == 0 then base else base | 0x80
  {
  }

  lemma BitSevenMatters(base: word)
    requires base & 0x1F00 == 0
    ensures Decode(base | 0x80) == Decode(base) <==> base & 0x80 != 0 || base >> 13 == 6
  {
  }

  lemma DelayReads(base: word, value: word, delay: Option<word>, s: word, optional: bool)
    requires base & 0x1F00 == 0 && 0 < s <= 5 && value < 1 << s
    requires delay.Some? ==> delay.value <= 31 >> s
    ensures var w := Or(Or(base, SideBits(Some(value), s, optional)), DelayBits(delay));
            && DecodeDelay(w, s) == (if delay.Some? then delay.value else 0)
            && w & 0xE0FF == base
  {
  }

  lemma SideReads(base: word, value: word, delay: Option<word>, s: word, optional: bool)
    requires base & 0x1F00 == 0 && 0 < s <= 5 && value < 1 << s
    requires delay.Some? ==> delay.value <= 31 >> s
    ensures var w := Or(Or(base, SideBits(Some(value), s, optional)), DelayBits(delay));
            DecodeSide(w, s, optional) == Some(value) <==> value < 1 << (if optional then s - 1 else s)
  {
  }

  /** The delay and the instruction read back from a word, and the side value exactly when it fits the
      pins. */
  predicate ReadsBack(w: word, instr: word, value: word, delay: Option<word>, s: word, optional: bool)
    requires 0 < s <= 5
  {
    && DecodeDelay(w, s) == (if delay.Some? then delay.value else 0)
    && w & 0xE0FF == instr
    && (DecodeSide(w, s, optional) == Some(value) <==> value < 1 << (if optional then s - 1 else s))
  }

  lemma CheckedWordReadsBack(instr: word, value: word, delay: Option<word>, s: word, optional: bool)
    requires instr & 0x1F00 == 0 && 0 < s <= 5 && value < 1 << s
    requires delay.Some? ==> delay.value <= 31 >> s
    ensures ReadsBack(Or(Or(instr, SideBits(Some(value), s, optional)), DelayBits(delay)), instr, value, delay, s, optional)
  {
    DelayReads(instr, value, delay, s, optional);
    SideReads(instr, value, delay, s, optional);
  }

  lemma OrIs(a: word, b: word)
    ensures Or(a, b) == a | b
  {
  }

  lemma FieldsGroup(base: word, address: word, both: word, side: word, delay: word)
    requires both == Or(base, address)
    ensures OrFields(base, address, side, delay) == Or(Or(both, side), delay)
  {
  }

  /** So it is with every word whose side value has passed the check. */
  lemma CheckedFieldsDecode(base: word, address: word, value: word, delay: Option<word>, s: word, optional: bool)
    requires (base | address) & 0x1F00 == 0 && 0 < s <= 5 && value < 1 << s
    requires delay.Some? ==> delay.value <= 31 >> s
    ensures ReadsBack(OrFields(base, address, SideBits(Some(value), s, optional), DelayBits(delay)),
                      base | address, value, delay, s, optional)
  {
    var instr := base | address;
    OrIs(base, address);
    FieldsGroup(base, address, instr, SideBits(Some(value), s, optional), DelayBits(delay));
    CheckedWordReadsBack(instr, value, delay, s, optional);
  }
}
