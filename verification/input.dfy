/** The keypad instructions: EX9E, EXA1 and FX0A. None of them changes the key states. */
module Input {
  import opened Bits
  import opened Wrappers
  import opened Chip8
  import FlowControl

  /** Reads the key named by Vx: InvalidRegister when x names no register, InvalidKey when Vx
      names no key. */
  function KeyOf(m: Machine, x: nat): (r: Result<u8, Chip8Error>)
    ensures r.Err? <==> x >= BANK_SIZE || m.registers[x] >= BANK_SIZE
    ensures r.Err? ==> r.error == if x >= BANK_SIZE then InvalidRegister(x) else InvalidKey(m.registers[x])
    ensures r.Ok? ==> r.value == m.keyboard[m.registers[x]]
  {
    if x >= BANK_SIZE then Err(InvalidRegister(x))
    else if m.registers[x] >= BANK_SIZE then Err(InvalidKey(m.registers[x]))
    else Ok(m.keyboard[m.registers[x]])
  }

  /** EX9E: skip the next instruction when the key Vx is down. */
  function SkipIfKeyPressed(m: Machine, x: nat): (r: Exec)
    ensures r.Fail? <==> x >= BANK_SIZE || m.registers[x] >= BANK_SIZE
    ensures r.Fail? ==> r.machine == m && r.error == KeyOf(m, x).error
    ensures r.Done? ==> r.machine == m.(pc := r.machine.pc)
    ensures r.Done? ==> (r.machine.pc != m.pc <==> m.keyboard[m.registers[x]] != 0)
    ensures r.Done? ==> r.machine.pc == m.pc || r.machine.pc == (m.pc + 2) % 0x1_0000
  {
    match KeyOf(m, x)
    case Err(e) => Fail(m, e)
    case Ok(key) => Done(FlowControl.SkipIf(m, key != 0))
  }

  /** EXA1: skip the next instruction when the key Vx is up. */
  function SkipIfKeyNotPressed(m: Machine, x: nat): (r: Exec)
    ensures r.Fail? <==> x >= BANK_SIZE || m.registers[x] >= BANK_SIZE
    ensures r.Fail? ==> r.machine == m && r.error == KeyOf(m, x).error
    ensures r.Done? ==> r.machine == m.(pc := r.machine.pc)
    ensures r.Done? ==> (r.machine.pc != m.pc <==> m.keyboard[m.registers[x]] == 0)
    ensures r.Done? ==> r.machine.pc == m.pc || r.machine.pc == (m.pc + 2) % 0x1_0000
  {
    match KeyOf(m, x)
    case Err(e) => Fail(m, e)
    case Ok(key) => Done(FlowControl.SkipIf(m, key == 0))
  }

  /** On a valid register, exactly one of EX9E and EXA1 skips. */
  lemma SkipsAreComplementary(m: Machine, x: nat)
    requires x < BANK_SIZE && m.registers[x] < BANK_SIZE
    ensures SkipIfKeyPressed(m, x).machine.pc == m.pc <==> SkipIfKeyNotPressed(m, x).machine.pc != m.pc
  {
  }

  /** The lowest-numbered key at or after `from` that is down. */
  function FirstPressed(kb: Keyboard, from: nat): (r: Option<nat>)
    requires from <= BANK_SIZE
    ensures r.Some? ==> from <= r.value < BANK_SIZE && kb[r.value] != 0
    ensures r.Some? ==> forall k :: from <= k < r.value ==> kb[k] == 0
    ensures r.None? <==> forall k :: from <= k < BANK_SIZE ==> kb[k] == 0
    decreases BANK_SIZE - from
  {
    if from == BANK_SIZE then None
    else if kb[from] != 0 then Some(from)
    else FirstPressed(kb, from + 1)
  }

  /** FX0A: when some key is down, Vx := the lowest such key; when none is, the program
      counter steps back over this instruction so that it runs again. The register operand is
      only checked once a key is found. */
  function WaitForKeyPress(m: Machine, x: nat): (r: Exec)
    ensures r.Fail? <==> x >= BANK_SIZE && exists k :: 0 <= k < BANK_SIZE && m.keyboard[k] != 0
    ensures r.Fail? ==> r == Fail(m, InvalidRegister(x))
    ensures r.Done? && (forall k :: 0 <= k < BANK_SIZE ==> m.keyboard[k] == 0) ==>
              r.machine == m.(pc := r.machine.pc) && (r.machine.pc as int + 2) % 0x1_0000 == m.pc
    ensures r.Done? && (exists k :: 0 <= k < BANK_SIZE && m.keyboard[k] != 0) ==>
              && OnlyRegisters(m, r.machine) && RegistersKept(m, r.machine, {x})
              && r.machine.registers[x] < BANK_SIZE && m.keyboard[r.machine.registers[x]] != 0
              && forall k :: 0 <= k < r.machine.registers[x] ==> m.keyboard[k] == 0
  {
    match FirstPressed(m.keyboard, 0)
    case None => Done(m.(pc := WrappingSub16(m.pc, 2)))
    case Some(key) =>
      if x >= BANK_SIZE then Fail(m, InvalidRegister(x))
      else Done(m.(registers := m.registers[x := key]))
  }

  /** With no key down FX0A only steps PC back over itself, whatever the register operand. */
  lemma WaitWithoutKey(m: Machine, x: nat)
    requires forall k :: 0 <= k < BANK_SIZE ==> m.keyboard[k] == 0
    requires m.pc >= 2
    ensures WaitForKeyPress(m, x) == Done(m.(pc := m.pc - 2))
  {
  }
}
