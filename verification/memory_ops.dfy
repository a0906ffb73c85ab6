/** The index-register and memory instructions: ANNN, FX1E, FX29, FX33, FX55, FX65, and the
    timer transfers FX07, FX15 and FX18. */
module MemoryOps {
  import opened Bits
  import opened Chip8
  import Memory

  /** ANNN: I := NNN. */
  function SetIToNnn(m: Machine, nnn: u16): (r: Exec)
    ensures r.Done? && r.machine.i == nnn
    ensures r.machine == m.(i := r.machine.i)
  {
    Done(m.(i := nnn))
  }

  /** FX07: Vx := delay timer. */
  function SetVxToDelayTimer(m: Machine, x: nat): (r: Exec)
    ensures r.Fail? <==> x >= BANK_SIZE
    ensures r.Fail? ==> r == Fail(m, InvalidRegister(x))
    ensures r.Done? ==> OnlyRegisters(m, r.machine) && RegistersKept(m, r.machine, {x})
    ensures r.Done? ==> r.machine.registers[x] == m.dt
  {
    if x >= BANK_SIZE then Fail(m, InvalidRegister(x))
    else Done(m.(registers := m.registers[x := m.dt]))
  }

  /** FX15: delay timer := Vx. */
  function SetDelayTimerToVx(m: Machine, x: nat): (r: Exec)
    ensures r.Fail? <==> x >= BANK_SIZE
    ensures r.Fail? ==> r == Fail(m, InvalidRegister(x))
    ensures r.Done? ==> r.machine == m.(dt := m.registers[x])
  {
    if x >= BANK_SIZE then Fail(m, InvalidRegister(x))
    else Done(m.(dt := m.registers[x]))
  }

  /** FX18: sound timer := Vx. */
  function SetSoundTimerToVx(m: Machine, x: nat): (r: Exec)
    ensures r.Fail? <==> x >= BANK_SIZE
    ensures r.Fail? ==> r == Fail(m, InvalidRegister(x))
    ensures r.Done? ==> r.machine == m.(st := m.registers[x])
  {
    if x >= BANK_SIZE then Fail(m, InvalidRegister(x))
    else Done(m.(st := m.registers[x]))
  }

  /** A timer written by FX15 reads back through FX07. */
  lemma DelayTimerRoundTrip(m: Machine, x: nat, y: nat)
    requires x < BANK_SIZE && y < BANK_SIZE
    ensures var m1 := SetDelayTimerToVx(m, x).machine;
            SetVxToDelayTimer(m1, y).machine.registers[y] == m.registers[x]
  {
  }

  /** FX1E: I := I + Vx, wrapping at 16 bits; VF is not touched. */
  function AddVxToI(m: Machine, x: nat): (r: Exec)
    ensures r.Fail? <==> x >= BANK_SIZE
    ensures r.Fail? ==> r == Fail(m, InvalidRegister(x))
    ensures r.Done? ==> r.machine == m.(i := r.machine.i)
    ensures r.Done? ==> r.machine.i as int + (if m.i + m.registers[x] > 0xFFFF then 0x1_0000 else 0) == m.i + m.registers[x]
  {
    if x >= BANK_SIZE then Fail(m, InvalidRegister(x))
    else Done(m.(i := WrappingAdd16(m.i, m.registers[x])))
  }

  /** FX29: I := the address of the glyph for Vx. Vx is not masked to a hex digit, so values
      above 15 point past the font. */
  function SetIToFontLocation(m: Machine, x: nat): (r: Exec)
    ensures r.Fail? <==> x >= BANK_SIZE
    ensures r.Fail? ==> r == Fail(m, InvalidRegister(x))
    ensures r.Done? ==> r.machine == m.(i := r.machine.i)
    ensures r.Done? ==> r.machine.i == Memory.FONT_START_ADDRESS + 5 * (m.registers[x] as int)
    ensures r.Done? && m.registers[x] < 16 ==>
              r.machine.i + 5 <= Memory.FONT_START_ADDRESS + |Memory.FONT_SET|
  {
    if x >= BANK_SIZE then Fail(m, InvalidRegister(x))
    else Done(m.(i := Memory.FONT_START_ADDRESS + (m.registers[x] as int) * 5))
  }

  /** The three decimal digits of a byte, hundreds first. */
  function Bcd(v: u8): (d: seq<u8>)
    ensures |d| == 3 && d[0] <= 2 && d[1] <= 9 && d[2] <= 9
    ensures 100 * (d[0] as int) + 10 * (d[1] as int) + d[2] == v
  {
    [v / 100, (v % 100) / 10, v % 10]
  }

  /** FX33: writes the decimal digits of Vx to I, I + 1 and I + 2. It fails with
      InvalidRegister(x) when x names no register, and otherwise with IndexError(I) when those
      three bytes are not all in memory. */
  function StoreBcdOfVx(m: Machine, x: nat): (r: Exec)
    ensures r.Fail? <==> x >= BANK_SIZE || m.i + 3 > Memory.RAM_SIZE
    ensures r.Fail? ==> r.machine == m
    ensures x >= BANK_SIZE ==> r == Fail(m, InvalidRegister(x))
    ensures r.Fail? && x < BANK_SIZE ==> r.error == IndexError(m.i)
    ensures r.Done? ==> r.machine == m.(memory := r.machine.memory)
    ensures r.Done? ==> r.machine.memory[m.i..m.i + 3] == Bcd(m.registers[x])
    ensures r.Done? ==> forall a :: 0 <= a < Memory.RAM_SIZE && !(m.i <= a < m.i + 3) ==> r.machine.memory[a] == m.memory[a]
  {
    if x >= BANK_SIZE then Fail(m, InvalidRegister(x))
    else if m.i + 3 > Memory.RAM_SIZE then Fail(m, IndexError(m.i))
    else Done(m.(memory := Memory.Overwrite(m.memory, Bcd(m.registers[x]), m.i)))
  }

  /** How many registers FX55 and FX65 move: V0 through Vx, capped at the register file. */
  function BlockLength(x: nat): (n: nat)
    ensures 1 <= n <= BANK_SIZE
    ensures x < BANK_SIZE ==> n == x + 1
  {
    if x < BANK_SIZE then x + 1 else BANK_SIZE
  }

  /** FX55: memory[I + k] := Vk for k = 0..x, or IndexError(I) when I + x is past memory;
      the registers and I are left as they were. */
  function StoreRegistersToMemory(m: Machine, x: nat): (r: Exec)
    ensures r.Fail? <==> m.i + x >= Memory.RAM_SIZE
    ensures r.Fail? ==> r == Fail(m, IndexError(m.i))
    ensures r.Done? ==> r.machine == m.(memory := r.machine.memory)
    ensures r.Done? ==> forall k :: 0 <= k < BlockLength(x) ==> r.machine.memory[m.i + k] == m.registers[k]
    ensures r.Done? ==> forall a :: 0 <= a < Memory.RAM_SIZE && !(m.i <= a < m.i + BlockLength(x)) ==> r.machine.memory[a] == m.memory[a]
  {
    if m.i + x >= Memory.RAM_SIZE then Fail(m, IndexError(m.i))
    else
      var block := m.registers[..BlockLength(x)];
      var r := Memory.Overwrite(m.memory, block, m.i);
      Done(m.(memory := r))
  }

  /** FX65: Vk := memory[I + k] for k = 0..x, or IndexError(I) when I + x is past memory;
      the registers above x, memory and I are left as they were. */
  function LoadRegistersFromMemory(m: Machine, x: nat): (r: Exec)
    ensures r.Fail? <==> m.i + x >= Memory.RAM_SIZE
    ensures r.Fail? ==> r == Fail(m, IndexError(m.i))
    ensures r.Done? ==> OnlyRegisters(m, r.machine)
    ensures r.Done? ==> forall k :: 0 <= k < BlockLength(x) ==> r.machine.registers[k] == m.memory[m.i + k]
    ensures r.Done? ==> forall k :: BlockLength(x) <= k < BANK_SIZE ==> r.machine.registers[k] == m.registers[k]
  {
    if m.i + x >= Memory.RAM_SIZE then Fail(m, IndexError(m.i))
    else
      var n := BlockLength(x);
      Done(m.(registers := m.memory[m.i..m.i + n] + m.registers[n..]))
  }

  /** Storing V0..Vx and loading them back from the same place changes no register. */
  lemma StoreThenLoad(m: Machine, x: nat)
    requires m.i + x < Memory.RAM_SIZE
    ensures var stored := StoreRegistersToMemory(m, x).machine;
            LoadRegistersFromMemory(stored, x) == Done(stored)
  {
    var stored := StoreRegistersToMemory(m, x).machine;
    var loaded := LoadRegistersFromMemory(stored, x).machine;
    assert loaded.registers == stored.registers;
  }
}
