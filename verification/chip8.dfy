/** The machine state and its lifecycle: construction, reset, ROM loading, timers, the
    keyboard, the display flag, instruction fetch and the call stack. */
module Chip8 {
  import opened Bits
  import opened Wrappers
  import opened Instructions
  import Memory

  /** Where ROMs are loaded and where execution starts. */
  const ROM_START_ADDRESS: nat := 0x200

  const FRAMEBUFFER_WIDTH: nat := 64
  const FRAMEBUFFER_HEIGHT: nat := 32

  /** Number of registers, keys and stack slots. */
  const BANK_SIZE: nat := 16

  type Registers = s: seq<u8> | |s| == BANK_SIZE witness seq(BANK_SIZE, _ => 0)
  type Keyboard = s: seq<u8> | |s| == BANK_SIZE witness seq(BANK_SIZE, _ => 0)
  type Stack = s: seq<u16> | |s| == BANK_SIZE witness seq(BANK_SIZE, _ => 0)

  /** Row-major, one byte per pixel. */
  type Screen = s: seq<u8> | |s| == FRAMEBUFFER_WIDTH * FRAMEBUFFER_HEIGHT
    witness seq(FRAMEBUFFER_WIDTH * FRAMEBUFFER_HEIGHT, _ => 0)

  /** The whole machine: memory, V0-VF, the index register I, the program counter, the stack
      pointer and stack, the delay and sound timers, the framebuffer, the key states and the
      flag telling the host that the framebuffer changed. */
  datatype Machine = Machine(
    memory: Memory.Ram,
    registers: Registers,
    i: u16,
    pc: u16,
    sp: u8,
    stack: Stack,
    dt: u8,
    st: u8,
    framebuffer: Screen,
    keyboard: Keyboard,
    displayUpdated: bool)

  /** The failures of the core. The text payload of an invalid opcode is replaced by the
      decoded instruction it describes. */
  datatype Chip8Error =
    | MemoryError(cause: Memory.MemoryError)
    | PCError(pc: u16)
    | InvalidOpCode(instruction: Instruction)
    | SPError(sp: u8)
    | SPOverflow(sp: u8)
    | FrameBufferOverflow(index: nat)
    | IndexError(address: u16)
    | InvalidRegister(register: nat)
    | InvalidKey(key: u8)

  /** The effect of an operation that mutates the machine in place: the machine afterwards,
      and on failure the error. A failing operation keeps whatever it changed before the
      failure was detected. */
  datatype Exec = Done(machine: Machine) | Fail(machine: Machine, error: Chip8Error)

  /** The pixel in column `col` of row `row`. */
  function Pixel(fb: Screen, col: nat, row: nat): u8
    requires col < FRAMEBUFFER_WIDTH && row < FRAMEBUFFER_HEIGHT
  {
    fb[row * FRAMEBUFFER_WIDTH + col]
  }

  /** `m'` is `m` with at most the registers replaced. */
  predicate OnlyRegisters(m: Machine, m': Machine)
  {
    m' == m.(registers := m'.registers)
  }

  /** The registers outside `changed` hold what they held in `m`. */
  predicate RegistersKept(m: Machine, m': Machine, changed: set<nat>)
  {
    forall k :: 0 <= k < BANK_SIZE && k !in changed ==> m'.registers[k] == m.registers[k]
  }

  /** The state right after construction. */
  predicate Initial(m: Machine)
  {
    && (forall a :: 0 <= a < Memory.RAM_SIZE ==> m.memory[a] == Memory.InitialByte(a))
    && (forall k :: 0 <= k < BANK_SIZE ==> m.registers[k] == 0 && m.stack[k] == 0 && m.keyboard[k] == 0)
    && (forall k :: 0 <= k < |m.framebuffer| ==> m.framebuffer[k] == 0)
    && m.i == 0 && m.pc == ROM_START_ADDRESS && m.sp == 0
    && m.dt == 0 && m.st == 0
    && !m.displayUpdated
  }

  /** The invariant every reachable machine keeps: the stack pointer never passes the end of
      the stack, and pixels and keys are 0 or 1. */
  predicate Valid(m: Machine)
  {
    && m.sp <= BANK_SIZE
    && (forall k :: 0 <= k < |m.framebuffer| ==> m.framebuffer[k] <= 1)
    && (forall k :: 0 <= k < BANK_SIZE ==> m.keyboard[k] <= 1)
  }

  function New(): (r: Result<Machine, Chip8Error>)
    ensures r.Ok? && Initial(r.value) && Valid(r.value)
  {
    match Memory.TryNew()
    case Err(e) => Err(MemoryError(e))
    case Ok(ram) =>
      Ok(Machine(
        memory := ram,
        registers := seq(BANK_SIZE, _ => 0),
        i := 0,
        pc := ROM_START_ADDRESS,
        sp := 0,
        stack := seq(BANK_SIZE, _ => 0),
        dt := 0,
        st := 0,
        framebuffer := seq(FRAMEBUFFER_WIDTH * FRAMEBUFFER_HEIGHT, _ => 0),
        keyboard := seq(BANK_SIZE, _ => 0),
        displayUpdated := false))
  }

  /** Everything is rebuilt from scratch; nothing of the previous state survives. */
  function Reset(m: Machine): (r: Result<Machine, Chip8Error>)
    ensures r.Ok? && Initial(r.value)
  {
    match Memory.TryNew()
    case Err(e) => Err(MemoryError(e))
    case Ok(ram) => Ok(m.(
      memory := ram,
      registers := seq(BANK_SIZE, _ => 0),
      pc := ROM_START_ADDRESS,
      sp := 0,
      i := 0,
      stack := seq(BANK_SIZE, _ => 0),
      dt := 0,
      st := 0,
      framebuffer := seq(FRAMEBUFFER_WIDTH * FRAMEBUFFER_HEIGHT, _ => 0),
      keyboard := seq(BANK_SIZE, _ => 0),
      displayUpdated := false))
  }

  /** Only one machine is in the initial state. */
  lemma InitialUnique(m: Machine, m': Machine)
    requires Initial(m) && Initial(m')
    ensures m == m'
  {
    assert m.memory == m'.memory;
    assert m.registers == m'.registers;
    assert m.stack == m'.stack;
    assert m.keyboard == m'.keyboard;
    assert m.framebuffer == m'.framebuffer;
  }

  /** Reset yields the freshly constructed machine whatever came before, so resetting twice
      is resetting once. */
  lemma ResetIsNew(m: Machine)
    ensures Reset(m) == New()
    ensures Reset(Reset(m).value) == Reset(m)
  {
    InitialUnique(Reset(m).value, New().value);
    InitialUnique(Reset(Reset(m).value).value, New().value);
  }

  /** Copies the ROM to ROM_START_ADDRESS, or fails without touching anything when it does not
      fit in memory. */
  function LoadRom(m: Machine, rom: seq<u8>): (r: Result<Machine, Chip8Error>)
    ensures r.Err? <==> ROM_START_ADDRESS + |rom| > Memory.RAM_SIZE
    ensures r.Err? ==> r.error == MemoryError(Memory.OutOfMemory)
    ensures r.Ok? ==> r.value == m.(memory := r.value.memory)
    ensures r.Ok? ==> r.value.memory[ROM_START_ADDRESS..ROM_START_ADDRESS + |rom|] == rom
    ensures r.Ok? ==> forall a :: 0 <= a < ROM_START_ADDRESS ==> r.value.memory[a] == m.memory[a]
    ensures r.Ok? ==> forall a :: ROM_START_ADDRESS + |rom| <= a < Memory.RAM_SIZE ==> r.value.memory[a] == m.memory[a]
  {
    match Memory.WriteAt(m.memory, rom, ROM_START_ADDRESS)
    case Err(e) => Err(MemoryError(e))
    case Ok(ram) => Ok(m.(memory := ram))
  }

  /** A ROM loaded into a fresh machine leaves the font in place. */
  lemma LoadRomKeepsFont(rom: seq<u8>)
    requires ROM_START_ADDRESS + |rom| <= Memory.RAM_SIZE
    ensures var m := LoadRom(New().value, rom).value;
            m.memory[Memory.FONT_START_ADDRESS..Memory.FONT_START_ADDRESS + |Memory.FONT_SET|] == Memory.FONT_SET
  {
    var m0 := New().value;
    var m := LoadRom(m0, rom).value;
    forall k | 0 <= k < |Memory.FONT_SET|
      ensures m.memory[Memory.FONT_START_ADDRESS + k] == Memory.FONT_SET[k]
    {
      assert m.memory[Memory.FONT_START_ADDRESS + k] == m0.memory[Memory.FONT_START_ADDRESS + k];
    }
  }

  function Framebuffer(m: Machine): Screen
  {
    m.framebuffer
  }

  function IsDisplayUpdated(m: Machine): bool
  {
    m.displayUpdated
  }

  function ClearDisplayUpdatedFlag(m: Machine): (r: Machine)
    ensures !IsDisplayUpdated(r)
    ensures r.(displayUpdated := m.displayUpdated) == m
  {
    m.(displayUpdated := false)
  }

  /** Marks key `key` pressed; indices past the keypad are ignored. */
  function KeyPress(m: Machine, key: u8): (r: Machine)
    ensures key < BANK_SIZE ==> r.keyboard[key] == 1
    ensures forall k :: 0 <= k < BANK_SIZE && k != key ==> r.keyboard[k] == m.keyboard[k]
    ensures r == m.(keyboard := r.keyboard)
  {
    if key < BANK_SIZE then m.(keyboard := m.keyboard[key := 1]) else m
  }

  /** Marks key `key` released; indices past the keypad are ignored. */
  function KeyRelease(m: Machine, key: u8): (r: Machine)
    ensures key < BANK_SIZE ==> r.keyboard[key] == 0
    ensures forall k :: 0 <= k < BANK_SIZE && k != key ==> r.keyboard[k] == m.keyboard[k]
    ensures r == m.(keyboard := r.keyboard)
  {
    if key < BANK_SIZE then m.(keyboard := m.keyboard[key := 0]) else m
  }

  /** Releasing a key undoes pressing it when it was up before; out-of-range indices leave the
      machine as it was. */
  lemma PressReleaseRoundTrip(m: Machine, key: u8)
    requires key < BANK_SIZE ==> m.keyboard[key] == 0
    ensures KeyRelease(KeyPress(m, key), key) == m
  {
    if key < BANK_SIZE {
      assert KeyRelease(KeyPress(m, key), key).keyboard == m.keyboard;
    }
  }

  /** One 60 Hz tick: each timer counts down by one unless it is already zero. */
  function TickTimers(m: Machine): (r: Machine)
    ensures r.dt == if m.dt == 0 then 0 else m.dt - 1
    ensures r.st == if m.st == 0 then 0 else m.st - 1
    ensures r == m.(dt := r.dt, st := r.st)
  {
    m.(dt := if m.dt > 0 then m.dt - 1 else m.dt,
       st := if m.st > 0 then m.st - 1 else m.st)
  }

  function Saturate(v: int): nat
  {
    if v < 0 then 0 else v
  }

  /** `k` consecutive ticks. */
  function TickTimersTimes(m: Machine, k: nat): (r: Machine)
    ensures r.dt == Saturate(m.dt - k) && r.st == Saturate(m.st - k)
    ensures r == m.(dt := r.dt, st := r.st)
    decreases k
  {
    if k == 0 then m else TickTimersTimes(TickTimers(m), k - 1)
  }

  function ShouldBeep(m: Machine): bool
  {
    m.st > 0
  }

  function DelayTimer(m: Machine): u8
  {
    m.dt
  }

  function SoundTimer(m: Machine): u8
  {
    m.st
  }

  function DelayTimerFinished(m: Machine): bool
  {
    m.dt == 0
  }

  /** The beeper sounds for exactly as many ticks as the sound timer holds, and the delay
      timer finishes after as many ticks as it holds. */
  lemma TimersRunOut(m: Machine, k: nat)
    ensures ShouldBeep(TickTimersTimes(m, k)) <==> k < SoundTimer(m)
    ensures DelayTimerFinished(TickTimersTimes(m, k)) <==> k >= DelayTimer(m)
  {
  }

  /** Reads the big-endian opcode at PC and moves PC past it, or fails with PC untouched. */
  function Fetch(m: Machine): (r: Result<(Instruction, Machine), Chip8Error>)
    ensures r.Ok? <==> m.pc + 2 <= Memory.RAM_SIZE
    ensures r.Err? ==> r.error == PCError(m.pc)
    ensures r.Ok? ==> r.value.1 == m.(pc := m.pc + 2)
    ensures r.Ok? ==> r.value.0 == Decode(m.memory[m.pc] as int * 0x100 + m.memory[m.pc + 1])
  {
    match Memory.ReadWord(m.memory, m.pc)
    case None => Err(PCError(m.pc))
    case Some(word) =>
      if m.pc + 2 > 0xFFFF then Err(PCError(m.pc))
      else Ok((Decode(word), m.(pc := m.pc + 2)))
  }

  /** Saves PC in the next free stack slot, or fails when all sixteen slots are taken. */
  function PushStack(m: Machine): (r: Exec)
    ensures r.Fail? <==> m.sp >= BANK_SIZE
    ensures r.Fail? ==> r == Fail(m, SPError(m.sp))
    ensures r.Done? ==> r.machine.stack[m.sp] == m.pc && r.machine.sp == m.sp + 1
    ensures r.Done? ==> forall k :: 0 <= k < BANK_SIZE && k != m.sp ==> r.machine.stack[k] == m.stack[k]
    ensures r.machine == m.(sp := r.machine.sp, stack := r.machine.stack)
  {
    if m.sp < BANK_SIZE then Done(m.(stack := m.stack[m.sp := m.pc], sp := m.sp + 1))
    else Fail(m, SPError(m.sp))
  }

  /** Restores PC from the top stack slot. An empty stack fails with SP untouched; a stack
      pointer past the end fails after it has been decremented. */
  function PopStack(m: Machine): (r: Exec)
    ensures r.Fail? <==> m.sp == 0 || m.sp > BANK_SIZE
    ensures m.sp == 0 ==> r == Fail(m, SPOverflow(0))
    ensures m.sp > BANK_SIZE ==> r == Fail(m.(sp := m.sp - 1), SPError(m.sp - 1))
    ensures r.Done? ==> r.machine == m.(sp := m.sp - 1, pc := m.stack[m.sp - 1])
  {
    if m.sp == 0 then Fail(m, SPOverflow(m.sp))
    else
      var sp := m.sp - 1;
      if sp < BANK_SIZE then Done(m.(sp := sp, pc := m.stack[sp]))
      else Fail(m.(sp := sp), SPError(sp))
  }

  /** Popping right after pushing restores PC and SP; only the used slot keeps the saved PC. */
  lemma PushThenPop(m: Machine)
    requires m.sp < BANK_SIZE
    ensures PopStack(PushStack(m).machine) == Done(m.(stack := m.stack[m.sp := m.pc]))
  {
  }

  /** Two saves with PC moved in between come back in reverse order. */
  lemma StackIsLifo(m: Machine, a: u16, b: u16)
    requires m.sp + 2 <= BANK_SIZE
    ensures var m1 := PushStack(m).machine.(pc := a);
            var m2 := PushStack(m1).machine.(pc := b);
            var p1 := PopStack(m2);
            var p2 := PopStack(p1.machine);
            && p1.Done? && p1.machine.pc == a && p1.machine.sp == m.sp + 1
            && p2.Done? && p2.machine.pc == m.pc && p2.machine.sp == m.sp
  {
  }
}
