/** Screen clear, jumps, subroutine call and return, and the register-comparison skips.

    A skip adds 2 to PC, which fetch has already moved past the skip instruction itself, so
    the next instruction is passed over. */
module FlowControl {
  import opened Bits
  import opened Chip8

  /** 00E0: every pixel off, and the host is told the screen changed. */
  function ClearScreen(m: Machine): (r: Exec)
    ensures r.Done?
    ensures forall k :: 0 <= k < |r.machine.framebuffer| ==> r.machine.framebuffer[k] == 0
    ensures r.machine.displayUpdated
    ensures r.machine == m.(framebuffer := r.machine.framebuffer, displayUpdated := true)
  {
    Done(m.(framebuffer := seq(FRAMEBUFFER_WIDTH * FRAMEBUFFER_HEIGHT, _ => 0), displayUpdated := true))
  }

  /** 00EE: PC := the saved return address. */
  function ReturnFromSubroutine(m: Machine): (r: Exec)
    ensures r.Fail? <==> m.sp == 0 || m.sp > BANK_SIZE
    ensures m.sp == 0 ==> r == Fail(m, SPOverflow(0))
    ensures m.sp > BANK_SIZE ==> r == Fail(m.(sp := m.sp - 1), SPError(m.sp - 1))
    ensures r.Done? ==> r.machine.pc == m.stack[m.sp - 1] && r.machine.sp == m.sp - 1
    ensures r.Done? ==> r.machine == m.(pc := r.machine.pc, sp := r.machine.sp)
  {
    PopStack(m)
  }

  /** 1NNN: PC := NNN. */
  function JumpToAddress(m: Machine, nnn: u16): (r: Exec)
    ensures r.Done? && r.machine.pc == nnn
    ensures r.machine == m.(pc := r.machine.pc)
  {
    Done(m.(pc := nnn))
  }

  /** 2NNN: save PC (already past this instruction), then PC := NNN. A full stack fails with
      PC left alone. */
  function CallSubroutine(m: Machine, nnn: u16): (r: Exec)
    ensures r.Fail? <==> m.sp >= BANK_SIZE
    ensures r.Fail? ==> r == Fail(m, SPError(m.sp))
    ensures r.Done? ==> r.machine.pc == nnn && r.machine.sp == m.sp + 1 && r.machine.stack[m.sp] == m.pc
    ensures r.Done? ==> forall k :: 0 <= k < BANK_SIZE && k != m.sp ==> r.machine.stack[k] == m.stack[k]
    ensures r.machine == m.(pc := r.machine.pc, sp := r.machine.sp, stack := r.machine.stack)
  {
    match PushStack(m)
    case Fail(m', e) => Fail(m', e)
    case Done(m') => Done(m'.(pc := nnn))
  }

  /** Returning from a call comes back to the return address with the stack as before the call. */
  lemma CallThenReturn(m: Machine, nnn: u16)
    requires m.sp < BANK_SIZE
    ensures var c := CallSubroutine(m, nnn);
            c.Done? && ReturnFromSubroutine(c.machine) == Done(m.(stack := c.machine.stack))
  {
  }

  /** Adds 2 to PC, wrapping at 16 bits, when `cond` holds; nothing else changes. */
  function SkipIf(m: Machine, cond: bool): (r: Machine)
    ensures r == m.(pc := r.pc)
    ensures r.pc == if cond then (m.pc + 2) % 0x1_0000 else m.pc
  {
    if cond then m.(pc := WrappingAdd16(m.pc, 2)) else m
  }

  /** 3XNN: skip when Vx == NN. */
  function SkipIfVxEqualsNn(m: Machine, x: nat, nn: u8): (r: Exec)
    ensures r.Fail? <==> x >= BANK_SIZE
    ensures r.Fail? ==> r == Fail(m, InvalidRegister(x))
    ensures r.Done? ==> r.machine == m.(pc := r.machine.pc)
    ensures r.Done? ==> (r.machine.pc != m.pc <==> m.registers[x] == nn)
    ensures r.Done? ==> r.machine.pc == m.pc || r.machine.pc == (m.pc + 2) % 0x1_0000
  {
    if x >= BANK_SIZE then Fail(m, InvalidRegister(x))
    else Done(SkipIf(m, m.registers[x] == nn))
  }

  /** 4XNN: skip when Vx != NN. */
  function SkipIfVxNotEqualsNn(m: Machine, x: nat, nn: u8): (r: Exec)
    ensures r.Fail? <==> x >= BANK_SIZE
    ensures r.Fail? ==> r == Fail(m, InvalidRegister(x))
    ensures r.Done? ==> r.machine == m.(pc := r.machine.pc)
    ensures r.Done? ==> (r.machine.pc != m.pc <==> m.registers[x] != nn)
    ensures r.Done? ==> r.machine.pc == m.pc || r.machine.pc == (m.pc + 2) % 0x1_0000
  {
    if x >= BANK_SIZE then Fail(m, InvalidRegister(x))
    else Done(SkipIf(m, m.registers[x] != nn))
  }

  /** The register checks of the register-comparison skips: Vx first. */
  function CheckRegisters(x: nat, y: nat): (r: Chip8Error)
    requires x >= BANK_SIZE || y >= BANK_SIZE
    ensures r == InvalidRegister(if x >= BANK_SIZE then x else y)
  {
    if x >= BANK_SIZE then InvalidRegister(x) else InvalidRegister(y)
  }

  /** 5XY0: skip when Vx == Vy. */
  function SkipIfVxEqualsVy(m: Machine, x: nat, y: nat): (r: Exec)
    ensures r.Fail? <==> x >= BANK_SIZE || y >= BANK_SIZE
    ensures r.Fail? ==> r == Fail(m, CheckRegisters(x, y))
    ensures r.Done? ==> r.machine == m.(pc := r.machine.pc)
    ensures r.Done? ==> (r.machine.pc != m.pc <==> m.registers[x] == m.registers[y])
    ensures r.Done? ==> r.machine.pc == m.pc || r.machine.pc == (m.pc + 2) % 0x1_0000
  {
    if x >= BANK_SIZE || y >= BANK_SIZE then Fail(m, CheckRegisters(x, y))
    else Done(SkipIf(m, m.registers[x] == m.registers[y]))
  }

  /** 9XY0: skip when Vx != Vy. */
  function SkipIfVxNotEqualsVy(m: Machine, x: nat, y: nat): (r: Exec)
    ensures r.Fail? <==> x >= BANK_SIZE || y >= BANK_SIZE
    ensures r.Fail? ==> r == Fail(m, CheckRegisters(x, y))
    ensures r.Done? ==> r.machine == m.(pc := r.machine.pc)
    ensures r.Done? ==> (r.machine.pc != m.pc <==> m.registers[x] != m.registers[y])
    ensures r.Done? ==> r.machine.pc == m.pc || r.machine.pc == (m.pc + 2) % 0x1_0000
  {
    if x >= BANK_SIZE || y >= BANK_SIZE then Fail(m, CheckRegisters(x, y))
    else Done(SkipIf(m, m.registers[x] != m.registers[y]))
  }

  /** BNNN: PC := NNN + V0, wrapping at 16 bits. */
  function JumpToV0PlusNnn(m: Machine, nnn: u16): (r: Exec)
    ensures r.Done? && r.machine == m.(pc := r.machine.pc)
    ensures r.machine.pc as int + (if nnn + m.registers[0] > 0xFFFF then 0x1_0000 else 0) == nnn + m.registers[0]
  {
    Done(m.(pc := WrappingAdd16(nnn, m.registers[0])))
  }
}
