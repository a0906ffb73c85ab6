/** Instruction dispatch and the fetch-execute step. An instruction is first classified into
    its group, then matched against the opcodes of that group; an opcode the group does not
    know fails with InvalidOpCode and changes nothing. */
module Executor {
  import opened Bits
  import opened Wrappers
  import opened Instructions
  import opened Chip8
  import Arithmetic
  import FlowControl
  import MemoryOps
  import Display
  import Input

  /** 00EE, 1NNN, 2NNN and BNNN. */
  function ExecuteFlowControl(m: Machine, ins: Instruction): (r: Exec)
    ensures r.Fail? && r.error == InvalidOpCode(ins) <==>
              !((ins.instr, ins.x, ins.y, ins.n) == (0, 0, 0xE, 0xE) || ins.instr in {1, 2, 0xB})
  {
    match (ins.instr, ins.x, ins.y, ins.n)
    case (0, 0, 0xE, 0xE) => FlowControl.ReturnFromSubroutine(m)
    case (1, _, _, _) => FlowControl.JumpToAddress(m, ins.nnn)
    case (2, _, _, _) => FlowControl.CallSubroutine(m, ins.nnn)
    case (0xB, _, _, _) => FlowControl.JumpToV0PlusNnn(m, ins.nnn)
    case _ => Fail(m, InvalidOpCode(ins))
  }

  /** 3XNN, 4XNN, 5XY0, 9XY0, EX9E and EXA1. */
  function ExecuteConditionalSkip(m: Machine, ins: Instruction): (r: Exec)
  {
    match (ins.instr, ins.x, ins.y, ins.n)
    case (3, _, _, _) => FlowControl.SkipIfVxEqualsNn(m, ins.x, ins.nn)
    case (4, _, _, _) => FlowControl.SkipIfVxNotEqualsNn(m, ins.x, ins.nn)
    case (5, _, _, 0) => FlowControl.SkipIfVxEqualsVy(m, ins.x, ins.y)
    case (9, _, _, 0) => FlowControl.SkipIfVxNotEqualsVy(m, ins.x, ins.y)
    case (0xE, _, 0x9, 0xE) => Input.SkipIfKeyPressed(m, ins.x)
    case (0xE, _, 0xA, 0x1) => Input.SkipIfKeyNotPressed(m, ins.x)
    case _ => Fail(m, InvalidOpCode(ins))
  }

  /** 6XNN, 7XNN and 8XY0 through 8XYE. */
  function ExecuteRegisterOperation(m: Machine, ins: Instruction): (r: Exec)
  {
    match (ins.instr, ins.x, ins.y, ins.n)
    case (6, _, _, _) => Arithmetic.SetVxToNn(m, ins.x, ins.nn)
    case (7, _, _, _) => Arithmetic.AddNnToVx(m, ins.x, ins.nn)
    case (8, _, _, 0) => Arithmetic.SetVxToVy(m, ins.x, ins.y)
    case (8, _, _, 1) => Arithmetic.OrVxVy(m, ins.x, ins.y)
    case (8, _, _, 2) => Arithmetic.AndVxVy(m, ins.x, ins.y)
    case (8, _, _, 3) => Arithmetic.XorVxVy(m, ins.x, ins.y)
    case (8, _, _, 4) => Arithmetic.AddVxVy(m, ins.x, ins.y)
    case (8, _, _, 5) => Arithmetic.SubVxVy(m, ins.x, ins.y)
    case (8, _, _, 6) => Arithmetic.ShiftVxRight(m, ins.x)
    case (8, _, _, 7) => Arithmetic.SubVyVx(m, ins.x, ins.y)
    case (8, _, _, 0xE) => Arithmetic.ShiftVxLeft(m, ins.x)
    case _ => Fail(m, InvalidOpCode(ins))
  }

  /** ANNN, FX1E, FX29, FX33, FX55 and FX65. */
  function ExecuteMemoryOperation(m: Machine, ins: Instruction): (r: Exec)
  {
    match (ins.instr, ins.x, ins.y, ins.n)
    case (0xA, _, _, _) => MemoryOps.SetIToNnn(m, ins.nnn)
    case (0xF, _, 0x1, 0xE) => MemoryOps.AddVxToI(m, ins.x)
    case (0xF, _, 0x2, 0x9) => MemoryOps.SetIToFontLocation(m, ins.x)
    case (0xF, _, 0x3, 0x3) => MemoryOps.StoreBcdOfVx(m, ins.x)
    case (0xF, _, 0x5, 0x5) => MemoryOps.StoreRegistersToMemory(m, ins.x)
    case (0xF, _, 0x6, 0x5) => MemoryOps.LoadRegistersFromMemory(m, ins.x)
    case _ => Fail(m, InvalidOpCode(ins))
  }

  /** 00E0 and DXYN. */
  function ExecuteDisplayOperation(m: Machine, ins: Instruction): (r: Exec)
    requires ins.n < 0x100
  {
    match (ins.instr, ins.x, ins.y, ins.n)
    case (0, 0, 0xE, 0) => FlowControl.ClearScreen(m)
    case (0xD, _, _, _) => Display.DrawSprite(m, ins.x, ins.y, ins.n)
    case _ => Fail(m, InvalidOpCode(ins))
  }

  /** FX0A. */
  function ExecuteInputOutput(m: Machine, ins: Instruction): (r: Exec)
  {
    match (ins.instr, ins.x, ins.y, ins.n)
    case (0xF, _, 0x0, 0xA) => Input.WaitForKeyPress(m, ins.x)
    case _ => Fail(m, InvalidOpCode(ins))
  }

  /** FX07, FX15 and FX18. */
  function ExecuteTimerOperation(m: Machine, ins: Instruction): (r: Exec)
  {
    match (ins.instr, ins.x, ins.y, ins.n)
    case (0xF, _, 0x0, 0x7) => MemoryOps.SetVxToDelayTimer(m, ins.x)
    case (0xF, _, 0x1, 0x5) => MemoryOps.SetDelayTimerToVx(m, ins.x)
    case (0xF, _, 0x1, 0x8) => MemoryOps.SetSoundTimerToVx(m, ins.x)
    case _ => Fail(m, InvalidOpCode(ins))
  }

  /** CXNN, with the random byte supplied by the host. */
  function ExecuteRandomOperation(m: Machine, ins: Instruction, rnd: u8): (r: Exec)
  {
    match (ins.instr, ins.x, ins.y, ins.n)
    case (0xC, _, _, _) => Arithmetic.SetVxToRandomAndNn(m, ins.x, ins.nn, rnd)
    case _ => Fail(m, InvalidOpCode(ins))
  }

  /** Executes one decoded instruction. */
  function ExecuteInstruction(m: Machine, ins: Instruction, rnd: u8): (r: Exec)
    requires WellFormed(ins)
  {
    match Classify(ins)
    case FlowControl => ExecuteFlowControl(m, ins)
    case ConditionalSkip => ExecuteConditionalSkip(m, ins)
    case RegisterOp => ExecuteRegisterOperation(m, ins)
    case MemoryOp => ExecuteMemoryOperation(m, ins)
    case Display => ExecuteDisplayOperation(m, ins)
    case InputOutput => ExecuteInputOutput(m, ins)
    case Timer => ExecuteTimerOperation(m, ins)
    case Random => ExecuteRandomOperation(m, ins, rnd)
  }

  /** One fetch-execute step: fetch the opcode at PC, move PC past it, execute it. */
  function Run(m: Machine, rnd: u8): (r: Exec)
    ensures r.Fail? && r.error == PCError(m.pc) <==> m.pc + 2 > Memory.RAM_SIZE
    ensures m.pc + 2 > Memory.RAM_SIZE ==> r.machine == m
  {
    match Fetch(m)
    case Err(e) => Fail(m, e)
    case Ok((ins, next)) => ExecuteInstruction(next, ins, rnd)
  }

  /** The standard CHIP-8 instruction set, read directly off the opcode. */
  predicate IsValidOpcode(opcode: u16)
  {
    var op := opcode / 0x1000;
    var low := opcode % 0x100;
    || opcode == 0x00E0 || opcode == 0x00EE
    || op in {1, 2, 3, 4, 6, 7, 0xA, 0xB, 0xC, 0xD}
    || (op in {5, 9} && opcode % 0x10 == 0)
    || (op == 8 && opcode % 0x10 in {0, 1, 2, 3, 4, 5, 6, 7, 0xE})
    || (op == 0xE && low in {0x9E, 0xA1})
    || (op == 0xF && low in {0x07, 0x0A, 0x15, 0x18, 0x1E, 0x29, 0x33, 0x55, 0x65})
  }

  /** The opcode's fields as the decoded instruction holds them. */
  lemma DecodeFields(opcode: u16)
    ensures var ins := Decode(opcode);
            && opcode / 0x1000 == ins.instr && opcode % 0x100 == ins.nn && opcode % 0x10 == ins.n
            && opcode % 0x1000 == ins.nnn
            && (opcode / 0x100) % 0x10 == ins.x && (opcode / 0x10) % 0x10 == ins.y
            && (opcode == 0x00E0 <==> (ins.instr, ins.x, ins.y, ins.n) == (0, 0, 0xE, 0))
            && (opcode == 0x00EE <==> (ins.instr, ins.x, ins.y, ins.n) == (0, 0, 0xE, 0xE))
  {
    var ins := Decode(opcode);
    assert opcode == 0x1000 * ins.instr + 0x100 * ins.x + 0x10 * ins.y + ins.n;
  }

  /** Register operand X of an opcode: its second hexadecimal digit. */
  function OpX(opcode: u16): nat
  {
    (opcode / 0x100) % 0x10
  }

  /** Register operand Y of an opcode: its third hexadecimal digit. */
  function OpY(opcode: u16): nat
  {
    (opcode / 0x10) % 0x10
  }

  /** The handler 00EE, 1NNN, 2NNN and BNNN reach, with the address read off the opcode. */
  lemma FlowControlRouting(m: Machine, opcode: u16, rnd: u8)
    ensures opcode == 0x00EE ==>
              ExecuteInstruction(m, Decode(opcode), rnd) == FlowControl.ReturnFromSubroutine(m)
    ensures opcode / 0x1000 == 1 ==>
              ExecuteInstruction(m, Decode(opcode), rnd) == FlowControl.JumpToAddress(m, opcode % 0x1000)
    ensures opcode / 0x1000 == 2 ==>
              ExecuteInstruction(m, Decode(opcode), rnd) == FlowControl.CallSubroutine(m, opcode % 0x1000)
    ensures opcode / 0x1000 == 0xB ==>
              ExecuteInstruction(m, Decode(opcode), rnd) == FlowControl.JumpToV0PlusNnn(m, opcode % 0x1000)
  {
    DecodeFields(opcode);
  }

  /** The handler each conditional skip reaches: 3XNN, 4XNN, 5XY0, 9XY0, EX9E and EXA1. */
  lemma SkipRouting(m: Machine, opcode: u16, rnd: u8)
    ensures opcode / 0x1000 == 3 ==>
              ExecuteInstruction(m, Decode(opcode), rnd) == FlowControl.SkipIfVxEqualsNn(m, OpX(opcode), opcode % 0x100)
    ensures opcode / 0x1000 == 4 ==>
              ExecuteInstruction(m, Decode(opcode), rnd) == FlowControl.SkipIfVxNotEqualsNn(m, OpX(opcode), opcode % 0x100)
    ensures opcode / 0x1000 == 5 && opcode % 0x10 == 0 ==>
              ExecuteInstruction(m, Decode(opcode), rnd) == FlowControl.SkipIfVxEqualsVy(m, OpX(opcode), OpY(opcode))
    ensures opcode / 0x1000 == 9 && opcode % 0x10 == 0 ==>
              ExecuteInstruction(m, Decode(opcode), rnd) == FlowControl.SkipIfVxNotEqualsVy(m, OpX(opcode), OpY(opcode))
    ensures opcode / 0x1000 == 0xE && opcode % 0x100 == 0x9E ==>
              ExecuteInstruction(m, Decode(opcode), rnd) == Input.SkipIfKeyPressed(m, OpX(opcode))
    ensures opcode / 0x1000 == 0xE && opcode % 0x100 == 0xA1 ==>
              ExecuteInstruction(m, Decode(opcode), rnd) == Input.SkipIfKeyNotPressed(m, OpX(opcode))
  {
    DecodeFields(opcode);
  }

  /** The handler each register operation reaches: 6XNN, 7XNN and 8XY0 through 8XYE. */
  lemma RegisterRouting(m: Machine, opcode: u16, rnd: u8)
    ensures opcode / 0x1000 == 6 ==>
              ExecuteInstruction(m, Decode(opcode), rnd) == Arithmetic.SetVxToNn(m, OpX(opcode), opcode % 0x100)
    ensures opcode / 0x1000 == 7 ==>
              ExecuteInstruction(m, Decode(opcode), rnd) == Arithmetic.AddNnToVx(m, OpX(opcode), opcode % 0x100)
    ensures opcode / 0x1000 == 8 && opcode % 0x10 == 0 ==>
              ExecuteInstruction(m, Decode(opcode), rnd) == Arithmetic.SetVxToVy(m, OpX(opcode), OpY(opcode))
    ensures opcode / 0x1000 == 8 && opcode % 0x10 == 1 ==>
              ExecuteInstruction(m, Decode(opcode), rnd) == Arithmetic.OrVxVy(m, OpX(opcode), OpY(opcode))
    ensures opcode / 0x1000 == 8 && opcode % 0x10 == 2 ==>
              ExecuteInstruction(m, Decode(opcode), rnd) == Arithmetic.AndVxVy(m, OpX(opcode), OpY(opcode))
    ensures opcode / 0x1000 == 8 && opcode % 0x10 == 3 ==>
              ExecuteInstruction(m, Decode(opcode), rnd) == Arithmetic.XorVxVy(m, OpX(opcode), OpY(opcode))
    ensures opcode / 0x1000 == 8 && opcode % 0x10 == 4 ==>
              ExecuteInstruction(m, Decode(opcode), rnd) == Arithmetic.AddVxVy(m, OpX(opcode), OpY(opcode))
    ensures opcode / 0x1000 == 8 && opcode % 0x10 == 5 ==>
              ExecuteInstruction(m, Decode(opcode), rnd) == Arithmetic.SubVxVy(m, OpX(opcode), OpY(opcode))
    ensures opcode / 0x1000 == 8 && opcode % 0x10 == 7 ==>
              ExecuteInstruction(m, Decode(opcode), rnd) == Arithmetic.SubVyVx(m, OpX(opcode), OpY(opcode))
    ensures opcode / 0x1000 == 8 && opcode % 0x10 == 6 ==>
              ExecuteInstruction(m, Decode(opcode), rnd) == Arithmetic.ShiftVxRight(m, OpX(opcode))
    ensures opcode / 0x1000 == 8 && opcode % 0x10 == 0xE ==>
              ExecuteInstruction(m, Decode(opcode), rnd) == Arithmetic.ShiftVxLeft(m, OpX(opcode))
  {
    DecodeFields(opcode);
  }

  /** The handler ANNN and each FX memory, timer and input operation reach. */
  lemma MemoryTimerInputRouting(m: Machine, opcode: u16, rnd: u8)
    ensures opcode / 0x1000 == 0xA ==>
              ExecuteInstruction(m, Decode(opcode), rnd) == MemoryOps.SetIToNnn(m, opcode % 0x1000)
    ensures opcode / 0x1000 == 0xF && opcode % 0x100 == 0x07 ==>
              ExecuteInstruction(m, Decode(opcode), rnd) == MemoryOps.SetVxToDelayTimer(m, OpX(opcode))
    ensures opcode / 0x1000 == 0xF && opcode % 0x100 == 0x0A ==>
              ExecuteInstruction(m, Decode(opcode), rnd) == Input.WaitForKeyPress(m, OpX(opcode))
    ensures opcode / 0x1000 == 0xF && opcode % 0x100 == 0x15 ==>
              ExecuteInstruction(m, Decode(opcode), rnd) == MemoryOps.SetDelayTimerToVx(m, OpX(opcode))
    ensures opcode / 0x1000 == 0xF && opcode % 0x100 == 0x18 ==>
              ExecuteInstruction(m, Decode(opcode), rnd) == MemoryOps.SetSoundTimerToVx(m, OpX(opcode))
    ensures opcode / 0x1000 == 0xF && opcode % 0x100 == 0x1E ==>
              ExecuteInstruction(m, Decode(opcode), rnd) == MemoryOps.AddVxToI(m, OpX(opcode))
    ensures opcode / 0x1000 == 0xF && opcode % 0x100 == 0x29 ==>
              ExecuteInstruction(m, Decode(opcode), rnd) == MemoryOps.SetIToFontLocation(m, OpX(opcode))
    ensures opcode / 0x1000 == 0xF && opcode % 0x100 == 0x33 ==>
              ExecuteInstruction(m, Decode(opcode), rnd) == MemoryOps.StoreBcdOfVx(m, OpX(opcode))
    ensures opcode / 0x1000 == 0xF && opcode % 0x100 == 0x55 ==>
              ExecuteInstruction(m, Decode(opcode), rnd) == MemoryOps.StoreRegistersToMemory(m, OpX(opcode))
    ensures opcode / 0x1000 == 0xF && opcode % 0x100 == 0x65 ==>
              ExecuteInstruction(m, Decode(opcode), rnd) == MemoryOps.LoadRegistersFromMemory(m, OpX(opcode))
  {
    DecodeFields(opcode);
  }

  /** The handler 00E0, DXYN and CXNN reach; CXNN uses the random byte of the step. */
  lemma DisplayRandomRouting(m: Machine, opcode: u16, rnd: u8)
    ensures opcode == 0x00E0 ==>
              ExecuteInstruction(m, Decode(opcode), rnd) == FlowControl.ClearScreen(m)
    ensures opcode / 0x1000 == 0xD ==>
              ExecuteInstruction(m, Decode(opcode), rnd) == Display.DrawSprite(m, OpX(opcode), OpY(opcode), opcode % 0x10)
    ensures opcode / 0x1000 == 0xC ==>
              ExecuteInstruction(m, Decode(opcode), rnd) == Arithmetic.SetVxToRandomAndNn(m, OpX(opcode), opcode % 0x100, rnd)
  {
    DecodeFields(opcode);
  }

  /** Dispatch rejects exactly the opcodes outside the instruction set, and a rejected opcode
      changes nothing. */
  lemma InvalidOpCodeIffUnknown(m: Machine, opcode: u16, rnd: u8)
    ensures var r := ExecuteInstruction(m, Decode(opcode), rnd);
            (r.Fail? && r.error.InvalidOpCode?) <==> !IsValidOpcode(opcode)
    ensures !IsValidOpcode(opcode) ==> ExecuteInstruction(m, Decode(opcode), rnd) == Fail(m, InvalidOpCode(Decode(opcode)))
  {
    DecodeFields(opcode);
  }

  /** Register operands of a decoded instruction are nibbles, so no instruction fails for
      naming a register that does not exist. */
  lemma NoInvalidRegister(m: Machine, opcode: u16, rnd: u8)
    ensures var r := ExecuteInstruction(m, Decode(opcode), rnd);
            !(r.Fail? && r.error.InvalidRegister?)
  {
  }

  /** No instruction changes the key states; only the host's key press and release do. */
  lemma KeyboardUnchanged(m: Machine, opcode: u16, rnd: u8)
    ensures ExecuteInstruction(m, Decode(opcode), rnd).machine.keyboard == m.keyboard
  {
  }

  /** The register, memory and random groups keep a valid machine valid. */
  lemma DataOperationKeepsValid(m: Machine, ins: Instruction, rnd: u8)
    requires Valid(m)
    ensures Valid(ExecuteRegisterOperation(m, ins).machine)
    ensures Valid(ExecuteMemoryOperation(m, ins).machine)
    ensures Valid(ExecuteRandomOperation(m, ins, rnd).machine)
  {
  }

  /** The flow-control, skip, input and timer groups keep a valid machine valid. */
  lemma ControlOperationKeepsValid(m: Machine, ins: Instruction)
    requires Valid(m)
    ensures Valid(ExecuteFlowControl(m, ins).machine)
    ensures Valid(ExecuteConditionalSkip(m, ins).machine)
    ensures Valid(ExecuteInputOutput(m, ins).machine)
    ensures Valid(ExecuteTimerOperation(m, ins).machine)
  {
  }

  /** Executing any decoded instruction keeps a valid machine valid. */
  lemma ExecuteKeepsValid(m: Machine, ins: Instruction, rnd: u8)
    requires Valid(m) && WellFormed(ins)
    ensures Valid(ExecuteInstruction(m, ins, rnd).machine)
  {
    match Classify(ins)
    case Display =>
      assert Valid(ExecuteInstruction(m, ins, rnd).machine) by {
        if ins.instr == 0xD {
          Display.DrawKeepsValid(m, ins.x, ins.y, ins.n);
        }
      }
    case RegisterOp =>
      assert Valid(ExecuteInstruction(m, ins, rnd).machine) by {
        DataOperationKeepsValid(m, ins, rnd);
        assert ExecuteInstruction(m, ins, rnd) == ExecuteRegisterOperation(m, ins);
      }
    case MemoryOp =>
      assert Valid(ExecuteInstruction(m, ins, rnd).machine) by {
        DataOperationKeepsValid(m, ins, rnd);
        assert ExecuteInstruction(m, ins, rnd) == ExecuteMemoryOperation(m, ins);
      }
    case Random =>
      assert Valid(ExecuteInstruction(m, ins, rnd).machine) by {
        DataOperationKeepsValid(m, ins, rnd);
        assert ExecuteInstruction(m, ins, rnd) == ExecuteRandomOperation(m, ins, rnd);
      }
    case FlowControl =>
      assert Valid(ExecuteInstruction(m, ins, rnd).machine) by {
        ControlOperationKeepsValid(m, ins);
        assert ExecuteInstruction(m, ins, rnd) == ExecuteFlowControl(m, ins);
      }
    case ConditionalSkip =>
      assert Valid(ExecuteInstruction(m, ins, rnd).machine) by {
        ControlOperationKeepsValid(m, ins);
        assert ExecuteInstruction(m, ins, rnd) == ExecuteConditionalSkip(m, ins);
      }
    case InputOutput =>
      assert Valid(ExecuteInstruction(m, ins, rnd).machine) by {
        ControlOperationKeepsValid(m, ins);
        assert ExecuteInstruction(m, ins, rnd) == ExecuteInputOutput(m, ins);
      }
    case Timer =>
      assert Valid(ExecuteInstruction(m, ins, rnd).machine) by {
        ControlOperationKeepsValid(m, ins);
        assert ExecuteInstruction(m, ins, rnd) == ExecuteTimerOperation(m, ins);
      }
  }

  /** Every step keeps a valid machine valid: the stack pointer stays within the stack, and
      pixels and keys stay 0 or 1. */
  lemma RunKeepsValid(m: Machine, rnd: u8)
    requires Valid(m)
    ensures Valid(Run(m, rnd).machine)
  {
    if m.pc + 2 <= Memory.RAM_SIZE {
      RunExecutesFetched(m, rnd);
      ExecuteKeepsValid(m.(pc := m.pc + 2), Decode(OpcodeAt(m, m.pc)), rnd);
    }
  }

  /** The opcode stored at `address`. */
  function OpcodeAt(m: Machine, address: nat): u16
    requires address + 2 <= Memory.RAM_SIZE
  {
    m.memory[address] as int * 0x100 + m.memory[address + 1]
  }

  /** A step that can fetch executes the opcode stored at PC on the machine with PC moved past
      it, so the routing lemmas above say what every step does. */
  lemma RunExecutesFetched(m: Machine, rnd: u8)
    requires m.pc + 2 <= Memory.RAM_SIZE
    ensures Run(m, rnd) == ExecuteInstruction(m.(pc := m.pc + 2), Decode(OpcodeAt(m, m.pc)), rnd)
  {
    assert Fetch(m) == Ok((Decode(OpcodeAt(m, m.pc)), m.(pc := m.pc + 2)));
  }

  /** An unknown opcode costs one step and moves PC past itself, and changes nothing else. */
  lemma UnknownOpcodeSkipped(m: Machine, rnd: u8)
    requires m.pc + 2 <= Memory.RAM_SIZE && !IsValidOpcode(OpcodeAt(m, m.pc))
    ensures Run(m, rnd) == Fail(m.(pc := m.pc + 2), InvalidOpCode(Decode(OpcodeAt(m, m.pc))))
  {
    RunExecutesFetched(m, rnd);
    InvalidOpCodeIffUnknown(m.(pc := m.pc + 2), OpcodeAt(m, m.pc), rnd);
  }

  /** FX0A with no key down leaves the machine exactly as it was, so the next step waits
      again. */
  lemma WaitRepeatsUntilKey(m: Machine, rnd: u8)
    requires m.pc + 2 <= Memory.RAM_SIZE
    requires OpcodeAt(m, m.pc) / 0x1000 == 0xF && OpcodeAt(m, m.pc) % 0x100 == 0x0A
    requires forall k :: 0 <= k < BANK_SIZE ==> m.keyboard[k] == 0
    ensures Run(m, rnd) == Done(m)
  {
    var next := m.(pc := m.pc + 2);
    RunExecutesFetched(m, rnd);
    MemoryTimerInputRouting(next, OpcodeAt(m, m.pc), rnd);
    Input.WaitWithoutKey(next, OpX(OpcodeAt(m, m.pc)));
  }

  /** A 2NNN step followed by a 00EE step at NNN resumes right after the call, with the stack
      pointer back where it was. */
  lemma CallThenReturnSteps(m: Machine, rnd: u8)
    requires m.pc + 2 <= Memory.RAM_SIZE && m.sp < BANK_SIZE
    requires OpcodeAt(m, m.pc) / 0x1000 == 2
    ensures var called := Run(m, rnd);
            && called.Done?
            && called.machine.pc == OpcodeAt(m, m.pc) % 0x1000
            && called.machine.sp == m.sp + 1
    ensures var called := Run(m, rnd).machine;
            called.pc + 2 <= Memory.RAM_SIZE && OpcodeAt(called, called.pc) == 0x00EE ==>
              var returned := Run(called, rnd);
              returned.Done? && returned.machine.pc == m.pc + 2 && returned.machine.sp == m.sp
  {
    RunExecutesFetched(m, rnd);
    FlowControlRouting(m.(pc := m.pc + 2), OpcodeAt(m, m.pc), rnd);
    var called := Run(m, rnd).machine;
    if called.pc + 2 <= Memory.RAM_SIZE && OpcodeAt(called, called.pc) == 0x00EE {
      RunExecutesFetched(called, rnd);
      FlowControlRouting(called.(pc := called.pc + 2), 0x00EE, rnd);
    }
  }
}
