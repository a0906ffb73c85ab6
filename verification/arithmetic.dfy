/** The register instructions: loads, wrapping adds, bitwise operators, subtraction with the
    not-borrow flag, shifts with the shifted-out bit in VF, and the masked random byte.

    VF is register 15. Where a handler writes both Vx and VF, VF is written last, so the flag
    is what remains when x is 15. */
module Arithmetic {
  import opened Bits
  import opened Wrappers
  import opened Chip8

  const VF: nat := 15

  /** 6XNN: Vx := NN. */
  function SetVxToNn(m: Machine, x: nat, nn: u8): (r: Exec)
    ensures r.Fail? <==> x >= BANK_SIZE
    ensures r.Fail? ==> r == Fail(m, InvalidRegister(x))
    ensures r.Done? ==> OnlyRegisters(m, r.machine) && RegistersKept(m, r.machine, {x})
    ensures r.Done? ==> r.machine.registers[x] == nn
  {
    if x >= BANK_SIZE then Fail(m, InvalidRegister(x))
    else Done(m.(registers := m.registers[x := nn]))
  }

  /** 7XNN: Vx := Vx + NN modulo 256; no flag is written. */
  function AddNnToVx(m: Machine, x: nat, nn: u8): (r: Exec)
    ensures r.Fail? <==> x >= BANK_SIZE
    ensures r.Fail? ==> r == Fail(m, InvalidRegister(x))
    ensures r.Done? ==> OnlyRegisters(m, r.machine) && RegistersKept(m, r.machine, {x})
    ensures r.Done? ==> r.machine.registers[x] as int + (if m.registers[x] + nn > 0xFF then 0x100 else 0) == m.registers[x] + nn
  {
    if x >= BANK_SIZE then Fail(m, InvalidRegister(x))
    else Done(m.(registers := m.registers[x := WrappingAdd8(m.registers[x], nn)]))
  }

  /** The checks every two-register handler makes before it writes anything: Vy first. */
  function CheckXY(m: Machine, x: nat, y: nat): (r: Option<Chip8Error>)
    ensures r.None? <==> x < BANK_SIZE && y < BANK_SIZE
    ensures y >= BANK_SIZE ==> r == Some(InvalidRegister(y))
    ensures y < BANK_SIZE <= x ==> r == Some(InvalidRegister(x))
  {
    if y >= BANK_SIZE then Some(InvalidRegister(y))
    else if x >= BANK_SIZE then Some(InvalidRegister(x))
    else None
  }

  /** 8XY0: Vx := Vy. */
  function SetVxToVy(m: Machine, x: nat, y: nat): (r: Exec)
    ensures r.Fail? <==> x >= BANK_SIZE || y >= BANK_SIZE
    ensures r.Fail? ==> r == Fail(m, CheckXY(m, x, y).value)
    ensures r.Done? ==> OnlyRegisters(m, r.machine) && RegistersKept(m, r.machine, {x})
    ensures r.Done? ==> r.machine.registers[x] == m.registers[y]
  {
    match CheckXY(m, x, y)
    case Some(e) => Fail(m, e)
    case None => Done(m.(registers := m.registers[x := m.registers[y]]))
  }

  /** 8XY1: Vx := Vx | Vy. */
  function OrVxVy(m: Machine, x: nat, y: nat): (r: Exec)
    ensures r.Fail? <==> x >= BANK_SIZE || y >= BANK_SIZE
    ensures r.Fail? ==> r == Fail(m, CheckXY(m, x, y).value)
    ensures r.Done? ==> OnlyRegisters(m, r.machine) && RegistersKept(m, r.machine, {x})
    ensures r.Done? ==> forall k :: Bit(r.machine.registers[x], k) <==> Bit(m.registers[x], k) || Bit(m.registers[y], k)
  {
    match CheckXY(m, x, y)
    case Some(e) => Fail(m, e)
    case None =>
      OrBits(m.registers[x], m.registers[y]);
      Done(m.(registers := m.registers[x := Or8(m.registers[x], m.registers[y])]))
  }

  /** 8XY2: Vx := Vx & Vy. */
  function AndVxVy(m: Machine, x: nat, y: nat): (r: Exec)
    ensures r.Fail? <==> x >= BANK_SIZE || y >= BANK_SIZE
    ensures r.Fail? ==> r == Fail(m, CheckXY(m, x, y).value)
    ensures r.Done? ==> OnlyRegisters(m, r.machine) && RegistersKept(m, r.machine, {x})
    ensures r.Done? ==> forall k :: Bit(r.machine.registers[x], k) <==> Bit(m.registers[x], k) && Bit(m.registers[y], k)
  {
    match CheckXY(m, x, y)
    case Some(e) => Fail(m, e)
    case None =>
      AndBits(m.registers[x], m.registers[y]);
      Done(m.(registers := m.registers[x := And8(m.registers[x], m.registers[y])]))
  }

  /** 8XY3: Vx := Vx ^ Vy. */
  function XorVxVy(m: Machine, x: nat, y: nat): (r: Exec)
    ensures r.Fail? <==> x >= BANK_SIZE || y >= BANK_SIZE
    ensures r.Fail? ==> r == Fail(m, CheckXY(m, x, y).value)
    ensures r.Done? ==> OnlyRegisters(m, r.machine) && RegistersKept(m, r.machine, {x})
    ensures r.Done? ==> forall k :: Bit(r.machine.registers[x], k) <==> Bit(m.registers[x], k) != Bit(m.registers[y], k)
  {
    match CheckXY(m, x, y)
    case Some(e) => Fail(m, e)
    case None =>
      XorBits(m.registers[x], m.registers[y]);
      Done(m.(registers := m.registers[x := Xor8(m.registers[x], m.registers[y])]))
  }

  /** Writes `result` to Vx and then `flag` to VF. */
  function WriteWithFlag(m: Machine, x: nat, result: u8, flag: u8): (r: Machine)
    requires x < BANK_SIZE
    ensures OnlyRegisters(m, r) && RegistersKept(m, r, {x, VF})
    ensures r.registers[VF] == flag
    ensures x != VF ==> r.registers[x] == result
  {
    m.(registers := m.registers[x := result][VF := flag])
  }

  /** 8XY4: Vx := Vx + Vy modulo 256, VF := 1 when the sum carries out of 8 bits. */
  function AddVxVy(m: Machine, x: nat, y: nat): (r: Exec)
    ensures r.Fail? <==> x >= BANK_SIZE || y >= BANK_SIZE
    ensures r.Fail? ==> r == Fail(m, CheckXY(m, x, y).value)
    ensures r.Done? ==> OnlyRegisters(m, r.machine) && RegistersKept(m, r.machine, {x, VF})
    ensures r.Done? ==> (r.machine.registers[VF] == 1 <==> m.registers[x] as int + m.registers[y] > 0xFF)
    ensures r.Done? ==> r.machine.registers[VF] <= 1
    ensures r.Done? && x != VF ==>
              r.machine.registers[x] as int + 0x100 * (r.machine.registers[VF] as int) == m.registers[x] as int + m.registers[y]
  {
    match CheckXY(m, x, y)
    case Some(e) => Fail(m, e)
    case None =>
      var (result, overflow) := OverflowingAdd8(m.registers[x], m.registers[y]);
      Done(WriteWithFlag(m, x, result, if overflow then 1 else 0))
  }

  /** 8XY5: Vx := Vx - Vy modulo 256, VF := 1 when nothing was borrowed, that is Vx >= Vy. */
  function SubVxVy(m: Machine, x: nat, y: nat): (r: Exec)
    ensures r.Fail? <==> x >= BANK_SIZE || y >= BANK_SIZE
    ensures r.Fail? ==> r == Fail(m, CheckXY(m, x, y).value)
    ensures r.Done? ==> OnlyRegisters(m, r.machine) && RegistersKept(m, r.machine, {x, VF})
    ensures r.Done? ==> (r.machine.registers[VF] == 1 <==> m.registers[x] >= m.registers[y])
    ensures r.Done? ==> r.machine.registers[VF] <= 1
    ensures r.Done? && x != VF ==>
              r.machine.registers[x] == m.registers[x] as int - m.registers[y] + 0x100 * (1 - r.machine.registers[VF] as int)
  {
    match CheckXY(m, x, y)
    case Some(e) => Fail(m, e)
    case None =>
      var (result, borrow) := OverflowingSub8(m.registers[x], m.registers[y]);
      Done(WriteWithFlag(m, x, result, if borrow then 0 else 1))
  }

  /** 8XY7: Vx := Vy - Vx modulo 256, VF := 1 when Vy >= Vx. */
  function SubVyVx(m: Machine, x: nat, y: nat): (r: Exec)
    ensures r.Fail? <==> x >= BANK_SIZE || y >= BANK_SIZE
    ensures r.Fail? ==> r == Fail(m, CheckXY(m, x, y).value)
    ensures r.Done? ==> OnlyRegisters(m, r.machine) && RegistersKept(m, r.machine, {x, VF})
    ensures r.Done? ==> (r.machine.registers[VF] == 1 <==> m.registers[y] >= m.registers[x])
    ensures r.Done? ==> r.machine.registers[VF] <= 1
    ensures r.Done? && x != VF ==>
              r.machine.registers[x] == m.registers[y] as int - m.registers[x] + 0x100 * (1 - r.machine.registers[VF] as int)
  {
    match CheckXY(m, x, y)
    case Some(e) => Fail(m, e)
    case None =>
      var (result, borrow) := OverflowingSub8(m.registers[y], m.registers[x]);
      Done(WriteWithFlag(m, x, result, if borrow then 0 else 1))
  }

  /** 8XY6: Vx := Vx >> 1 with the bit shifted out in VF; Vy is not read. */
  function ShiftVxRight(m: Machine, x: nat): (r: Exec)
    ensures r.Fail? <==> x >= BANK_SIZE
    ensures r.Fail? ==> r == Fail(m, InvalidRegister(x))
    ensures r.Done? ==> OnlyRegisters(m, r.machine) && RegistersKept(m, r.machine, {x, VF})
    ensures r.Done? ==> r.machine.registers[VF] == (if Bit(m.registers[x], 0) then 1 else 0)
    ensures r.Done? && x != VF ==> 2 * r.machine.registers[x] as int + r.machine.registers[VF] == m.registers[x]
  {
    if x >= BANK_SIZE then Fail(m, InvalidRegister(x))
    else
      var shiftedOut := And8(m.registers[x], 1);
      Done(WriteWithFlag(m, x, m.registers[x] / 2, shiftedOut))
  }

  /** 8XYE: Vx := Vx << 1 modulo 256 with the bit shifted out in VF; Vy is not read. */
  function ShiftVxLeft(m: Machine, x: nat): (r: Exec)
    ensures r.Fail? <==> x >= BANK_SIZE
    ensures r.Fail? ==> r == Fail(m, InvalidRegister(x))
    ensures r.Done? ==> OnlyRegisters(m, r.machine) && RegistersKept(m, r.machine, {x, VF})
    ensures r.Done? ==> r.machine.registers[VF] == (if Bit(m.registers[x], 7) then 1 else 0)
    ensures r.Done? && x != VF ==> r.machine.registers[x] as int + 0x100 * (r.machine.registers[VF] as int) == 2 * m.registers[x] as int
  {
    if x >= BANK_SIZE then Fail(m, InvalidRegister(x))
    else
      TopBit(m.registers[x]);
      var shiftedOut := And8(m.registers[x] / 0x80, 1);
      Done(WriteWithFlag(m, x, (m.registers[x] as int * 2) % 0x100, shiftedOut))
  }

  /** CXNN: Vx := rnd & NN for the random byte `rnd` the host supplies. */
  function SetVxToRandomAndNn(m: Machine, x: nat, nn: u8, rnd: u8): (r: Exec)
    ensures r.Fail? <==> x >= BANK_SIZE
    ensures r.Fail? ==> r == Fail(m, InvalidRegister(x))
    ensures r.Done? ==> OnlyRegisters(m, r.machine) && RegistersKept(m, r.machine, {x})
    ensures r.Done? ==> r.machine.registers[x] <= nn
    ensures r.Done? ==> forall k :: Bit(r.machine.registers[x], k) <==> Bit(nn, k) && Bit(rnd, k)
  {
    if x >= BANK_SIZE then Fail(m, InvalidRegister(x))
    else
      AndBits(rnd, nn);
      Done(m.(registers := m.registers[x := And8(rnd, nn)]))
  }

  /** 8XY3 is its own inverse: XOR-ing Vx with another register twice restores the machine. */
  lemma XorTwiceRestores(m: Machine, x: nat, y: nat)
    requires x < BANK_SIZE && y < BANK_SIZE && x != y
    ensures var m1 := XorVxVy(m, x, y).machine;
            XorVxVy(m1, x, y) == Done(m)
  {
    var m1 := XorVxVy(m, x, y).machine;
    var m2 := XorVxVy(m1, x, y).machine;
    BitsEqual(m2.registers[x], m.registers[x]);
    assert m2.registers == m.registers;
  }

  /** 8XY5 undoes 8XY4: adding Vy to Vx and then subtracting it gives Vx back, whatever the
      carry was. */
  lemma AddThenSubRestores(m: Machine, x: nat, y: nat)
    requires x < VF && y < VF && x != y
    ensures var m1 := AddVxVy(m, x, y).machine;
            SubVxVy(m1, x, y).machine.registers[x] == m.registers[x]
  {
  }
}
