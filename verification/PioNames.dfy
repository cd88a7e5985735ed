/**
 The names a PIO program uses for registers, jump conditions and wait sources: what constants the
 assembler's table gives them, what the RP2040 datasheet (section 3.4) makes of those, and for which
 instructions the two agree. The assembler checks none of this.
 */
module PioNames {
  import opened Wrappers
  import opened PioEncoding

  datatype Register = PINS | X | Y | NULL | PINDIRS | PC | STATUS | ISR | OSR | EXEC

  datatype Condition = Always | NotX | XDec | NotY | YDec | XNotY | PinHigh | NotOsre

  // ---- the assembler's table ----

  function ConstantOf(r: Register): word {
    match r
    case PINS => 0
    case X => 1
    case Y => 2
    case NULL => 3
    case PINDIRS => 4
    case PC => 5
    case STATUS => 5
    case ISR => 6
    case OSR => 7
    case EXEC => 8
  }

  function ConditionConstant(c: Condition): word {
    match c
    case Always => 0
    case NotX => 1
    case XDec => 2
    case NotY => 3
    case YDec => 4
    case XNotY => 5
    case PinHigh => 6
    case NotOsre => 7
  }

  const INVERT: word := 0x08
  const REVERSE: word := 0x10

  const NOBLOCK: word := 0x01
  const BLOCK: word := 0x21
  const IFFULL: word := 0x40
  const IFEMPTY: word := 0x40

  const GPIO_NAME: WaitArg := Constant(0)
  const PIN_NAME: WaitArg := Constant(6)
  const IRQ_NAME: WaitArg := IrqByName

  // ---- the datasheet ----

  function InSource(field: word): Option<Register> {
    match field
    case 0 => Some(PINS)
    case 1 => Some(X)
    case 2 => Some(Y)
    case 3 => Some(NULL)
    case 6 => Some(ISR)
    case 7 => Some(OSR)
    case _ => None
  }

  function OutDestination(field: word): Option<Register> {
    match field
    case 0 => Some(PINS)
    case 1 => Some(X)
    case 2 => Some(Y)
    case 3 => Some(NULL)
    case 4 => Some(PINDIRS)
    case 5 => Some(PC)
    case 6 => Some(ISR)
    case 7 => Some(EXEC)
    case _ => None
  }

  function MovDestination(field: word): Option<Register> {
    match field
    case 0 => Some(PINS)
    case 1 => Some(X)
    case 2 => Some(Y)
    case 4 => Some(EXEC)
    case 5 => Some(PC)
    case 6 => Some(ISR)
    case 7 => Some(OSR)
    case _ => None
  }

  function MovSource(field: word): Option<Register> {
    match field
    case 0 => Some(PINS)
    case 1 => Some(X)
    case 2 => Some(Y)
    case 3 => Some(NULL)
    case 5 => Some(STATUS)
    case 6 => Some(ISR)
    case 7 => Some(OSR)
    case _ => None
  }

  function SetDestination(field: word): Option<Register> {
    match field
    case 0 => Some(PINS)
    case 1 => Some(X)
    case 2 => Some(Y)
    case 4 => Some(PINDIRS)
    case _ => None
  }

  function ConditionOf(field: word): Condition {
    match field
    case 0 => Always
    case 1 => NotX
    case 2 => XDec
    case 3 => NotY
    case 4 => YDec
    case 5 => XNotY
    case 6 => PinHigh
    case _ => NotOsre
  }

  // ---- the two agree ----

  /** in_() reads the register it names, exactly for those that IN has. */
  lemma InNames(r: Register, count: word)
    requires r != EXEC && 0 < count <= 32
    ensures var i := Decode(Base(In(ConstantOf(r), count)));
            i.IN? && i.count == count && (InSource(i.src) == Some(r) <==> r !in {PINDIRS, PC, STATUS})
  {
    BaseMeans(In(ConstantOf(r), count), 0);
    NothingToOr(Base(In(ConstantOf(r), count)));
  }

  /** out() writes the register it names, but for STATUS and OSR: those are PC and EXEC to it. */
  lemma OutNames(r: Register, count: word)
    requires 0 < count <= 32
    ensures var i := Decode(Base(Out(ConstantOf(r), count)));
            i.OUT? && i.bits == count && (OutDestination(i.dest) == Some(r) <==> r !in {STATUS, OSR})
  {
    BaseMeans(Out(ConstantOf(r), count), 0);
    NothingToOr(Base(Out(ConstantOf(r), count)));
  }

  /** mov() moves between the registers it names, exactly for those that MOV has, plainly, inverted or
      reversed. */
  lemma MovNames(to: Register, from: Register, change: word)
    requires change == 0 || change == INVERT || change == REVERSE
    requires from != EXEC
    ensures var i := Decode(Base(Mov(ConstantOf(to), ConstantOf(from) | change)));
            && i.MOV? && i.op == change >> 3
            && (MovDestination(i.to) == Some(to) <==> to !in {NULL, PINDIRS, STATUS})
            && (MovSource(i.from) == Some(from) <==> from !in {PINDIRS, PC})
  {
    ChangeIsApart(ConstantOf(from), change);
    MovFields(ConstantOf(to), ConstantOf(from) | change);
    MovDestinations(to);
    MovSources(from);
  }

  /** The field mov() puts in for a destination. */
  function MovField(to: word): word { if to == 8 then 4 else to }

  lemma MovFields(to: word, from: word)
    requires to <= 8 && from < 32
    ensures Decode(Base(Mov(to, from))) == MOV(MovField(to), from >> 3, from & 7)
  {
    BaseMeans(Mov(to, from), 0);
    NothingToOr(Base(Mov(to, from)));
  }

  lemma MovDestinations(to: Register)
    ensures ConstantOf(to) <= 8
    ensures MovDestination(MovField(ConstantOf(to))) == Some(to) <==> to !in {NULL, PINDIRS, STATUS}
  {
  }

  lemma MovSources(from: Register)
    requires from != EXEC
    ensures ConstantOf(from) < 8 && (MovSource(ConstantOf(from)) == Some(from) <==> from !in {PINDIRS, PC})
  {
  }

  lemma ChangeIsApart(from: word, change: word)
    requires from < 8 && (change == 0 || change == INVERT || change == REVERSE)
    ensures from | change < 32 && (from | change) >> 3 == change >> 3 && (from | change) & 7 == from
  {
  }

  /** set() sets the register it names, exactly for those that SET has. */
  lemma SetNames(r: Register, data: word)
    requires r != EXEC && data < 32
    ensures var i := Decode(Base(Set(ConstantOf(r), data)));
            i.SET? && i.data == data && (SetDestination(i.pins) == Some(r) <==> r in {PINS, X, Y, PINDIRS})
  {
    BaseMeans(Set(ConstantOf(r), data), 0);
    NothingToOr(Base(Set(ConstantOf(r), data)));
  }

  /** jmp() jumps on the condition it names. */
  lemma JumpNames(c: Condition, at: string, addr: word)
    requires addr < 32
    ensures var i := Decode(Base(Jmp(ConditionConstant(c), at)) | addr);
            i.JMP? && i.addr == addr && ConditionOf(i.cond) == c
  {
    BaseMeans(Jmp(ConditionConstant(c), at), addr);
  }

  /** wait() waits for what it names. */
  lemma WaitNames(polarity: word, index: word)
    requires polarity < 2 && index < 32
    ensures Decode(Base(Wait(polarity, GPIO_NAME, index))) == WAIT(polarity, Gpio, index)
    ensures Decode(Base(Wait(polarity, PIN_NAME, index))) == WAIT(polarity, Pin, index)
    ensures Decode(Base(Wait(polarity, IRQ_NAME, index))) == WAIT(polarity, IrqFlag, index)
  {
    BaseMeans(Wait(polarity, GPIO_NAME, index), 0);
    BaseMeans(Wait(polarity, PIN_NAME, index), 0);
    BaseMeans(Wait(polarity, IRQ_NAME, index), 0);
    NothingToOr(Base(Wait(polarity, GPIO_NAME, index)));
    NothingToOr(Base(Wait(polarity, PIN_NAME, index)));
    NothingToOr(Base(Wait(polarity, IRQ_NAME, index)));
  }

  /** push() and pull() block unless told not to, and wait for the threshold only when told to. */
  lemma FifoNames()
    ensures Decode(Base(Push(0, 0))) == PUSH(false, true) && Decode(Base(Pull(0, 0))) == PULL(false, true)
    ensures Decode(Base(Push(BLOCK, 0))) == PUSH(false, true) && Decode(Base(Pull(BLOCK, 0))) == PULL(false, true)
    ensures Decode(Base(Push(NOBLOCK, 0))) == PUSH(false, false) && Decode(Base(Pull(NOBLOCK, 0))) == PULL(false, false)
    ensures Decode(Base(Push(IFFULL, NOBLOCK))) == PUSH(true, false) && Decode(Base(Pull(IFEMPTY, NOBLOCK))) == PULL(true, false)
    ensures Decode(Base(Push(IFFULL, 0))) == PUSH(true, true) && Decode(Base(Pull(IFEMPTY, 0))) == PULL(true, true)
  {
  }

  lemma NothingToOr(w: word)
    ensures w | 0 == w
  {
  }
}
