/** Decoding of a 16-bit opcode into its nibble, byte and address fields, and the coarse
    classification of a decoded instruction into a functional group. */
module Instructions {
  import opened Bits

  /** The functional group of an instruction; the dispatcher first picks the group, then the
      opcode inside it. */
  datatype InstructionType =
    | FlowControl
    | ConditionalSkip
    | RegisterOp
    | MemoryOp
    | Display
    | InputOutput
    | Timer
    | Random

  /** A decoded opcode `instr X Y N`: `nn` is the low byte and `nnn` the low twelve bits. */
  datatype Instruction = Instruction(instr: nat, x: nat, y: nat, n: nat, nn: u8, nnn: u16)

  /** The four nibbles of a decoded instruction are nibbles, and the byte and address
      fields are the ones those nibbles spell. */
  predicate WellFormed(ins: Instruction)
  {
    && ins.instr < 16 && ins.x < 16 && ins.y < 16 && ins.n < 16
    && ins.nn == 16 * ins.y + ins.n
    && ins.nnn == 256 * ins.x + ins.nn
  }

  /** Peeling off the nibbles of a 16-bit value one at a time agrees with masking out the
      byte and the 12-bit address. */
  lemma NibbleArithmetic(opcode: u16)
    ensures opcode % 0x100 == 0x10 * ((opcode / 0x10) % 0x10) + opcode % 0x10
    ensures opcode % 0x1000 == 0x100 * ((opcode / 0x100) % 0x10) + opcode % 0x100
    ensures opcode == 0x1000 * (opcode / 0x1000) + opcode % 0x1000
    ensures opcode / 0x1000 < 0x10
  {
    var n := opcode % 0x10;
    var q1 := opcode / 0x10;
    var y := q1 % 0x10;
    var q2 := q1 / 0x10;
    var x := q2 % 0x10;
    var q3 := q2 / 0x10;
    assert opcode == 0x1000 * q3 + 0x100 * x + 0x10 * y + n;
    assert opcode / 0x1000 == q3;
    assert opcode % 0x1000 == 0x100 * x + 0x10 * y + n;
    assert opcode % 0x100 == 0x10 * y + n;
    assert opcode / 0x100 == 0x10 * q3 + x;
  }

  /** `opcode & 0xF000 >> 12`, `& 0x0F00 >> 8`, `& 0x00F0 >> 4`, `& 0x000F`, `& 0x00FF`
      and `& 0x0FFF`: masking to the low k bits is `% 2^k` and shifting right by k is `/ 2^k`. */
  function Decode(opcode: u16): (ins: Instruction)
    ensures ins.instr < 16 && ins.x < 16 && ins.y < 16 && ins.n < 16
    ensures ins.nn == 16 * ins.y + ins.n && ins.nnn == 256 * ins.x + ins.nn
    ensures opcode == 0x1000 * ins.instr + ins.nnn
  {
    NibbleArithmetic(opcode);
    Instruction(
      opcode / 0x1000,
      (opcode / 0x100) % 0x10,
      (opcode / 0x10) % 0x10,
      opcode % 0x10,
      opcode % 0x100,
      opcode % 0x1000)
  }

  /** The opcode a well-formed instruction was decoded from. */
  function Encode(ins: Instruction): (opcode: u16)
    requires WellFormed(ins)
    ensures opcode == 0x1000 * ins.instr + ins.nnn
  {
    0x1000 * ins.instr + 0x100 * ins.x + 0x10 * ins.y + ins.n
  }

  /** Decoding loses nothing: it is a bijection between opcodes and well-formed instructions. */
  lemma DecodeEncode(opcode: u16, ins: Instruction)
    ensures Encode(Decode(opcode)) == opcode
    ensures WellFormed(ins) ==> Decode(Encode(ins)) == ins
  {
  }

  lemma DecodeExample()
    ensures Decode(0xABCD) == Instruction(0xA, 0xB, 0xC, 0xD, 0xCD, 0xBCD)
  {
  }

  /** The group of an instruction, by the first arm of the table that matches
      `(instr, x, y, n)`; anything unlisted falls back to FlowControl. */
  function Classify(ins: Instruction): InstructionType
  {
    match (ins.instr, ins.x, ins.y, ins.n)
    case (0, 0, 0xE, 0xE) => FlowControl
    case (1, _, _, _) => FlowControl
    case (2, _, _, _) => FlowControl
    case (0xB, _, _, _) => FlowControl
    case (3, _, _, _) => ConditionalSkip
    case (4, _, _, _) => ConditionalSkip
    case (5, _, _, 0) => ConditionalSkip
    case (9, _, _, 0) => ConditionalSkip
    case (0xE, _, 0x9, 0xE) => ConditionalSkip
    case (0xE, _, 0xA, 0x1) => ConditionalSkip
    case (6, _, _, _) => RegisterOp
    case (7, _, _, _) => RegisterOp
    case (8, _, _, _) => RegisterOp
    case (0xA, _, _, _) => MemoryOp
    case (0xF, _, 0x1, 0xE) => MemoryOp
    case (0xF, _, 0x2, 0x9) => MemoryOp
    case (0xF, _, 0x3, 0x3) => MemoryOp
    case (0xF, _, 0x5, 0x5) => MemoryOp
    case (0xF, _, 0x6, 0x5) => MemoryOp
    case (0, 0, 0xE, 0) => Display
    case (0xD, _, _, _) => Display
    case (0xF, _, 0x0, 0xA) => InputOutput
    case (0xF, _, 0x0, 0x7) => Timer
    case (0xF, _, 0x1, 0x5) => Timer
    case (0xF, _, 0x1, 0x8) => Timer
    case (0xC, _, _, _) => Random
    case _ => FlowControl
  }

  /** The classification, read off the opcode itself. */
  lemma ClassifyOpcodes(opcode: u16)
    ensures opcode == 0x00EE ==> Classify(Decode(opcode)) == FlowControl
    ensures opcode == 0x00E0 ==> Classify(Decode(opcode)) == Display
    ensures 0x1000 <= opcode < 0x3000 || 0xB000 <= opcode < 0xC000 ==> Classify(Decode(opcode)) == FlowControl
    ensures 0xD000 <= opcode < 0xE000 ==> Classify(Decode(opcode)) == Display
    ensures 0x3000 <= opcode < 0x5000 ==> Classify(Decode(opcode)) == ConditionalSkip
    ensures (0x5000 <= opcode < 0x6000 || 0x9000 <= opcode < 0xA000) ==>
              (Classify(Decode(opcode)) == ConditionalSkip <==> opcode % 0x10 == 0)
    ensures 0x6000 <= opcode < 0x9000 ==> Classify(Decode(opcode)) == RegisterOp
    ensures 0xA000 <= opcode < 0xB000 ==> Classify(Decode(opcode)) == MemoryOp
    ensures 0xC000 <= opcode < 0xD000 ==> Classify(Decode(opcode)) == Random
    ensures 0xE000 <= opcode < 0xF000 ==>
              (Classify(Decode(opcode)) == ConditionalSkip <==> opcode % 0x100 in {0x9E, 0xA1})
    ensures 0xF000 <= opcode ==>
              && (Classify(Decode(opcode)) == MemoryOp <==> opcode % 0x100 in {0x1E, 0x29, 0x33, 0x55, 0x65})
              && (Classify(Decode(opcode)) == InputOutput <==> opcode % 0x100 == 0x0A)
              && (Classify(Decode(opcode)) == Timer <==> opcode % 0x100 in {0x07, 0x15, 0x18})
    ensures opcode < 0x1000 && opcode != 0x00E0 ==> Classify(Decode(opcode)) == FlowControl
  {
  }
}
