# CHIP-8 interpreter core in Dafny

This project models `chip8_core`, the interpreter core of a CHIP-8 emulator written in Rust.
The machine holds:

- 4 KiB of memory with the hexadecimal font at 0x50
- sixteen 8-bit registers V0-VF
- the 16-bit index register I and program counter PC
- a 16-slot call stack and its stack pointer
- the delay and sound timers
- a 64x32 framebuffer of one-byte pixels
- a 16-key keypad
- the flag that tells the host the framebuffer changed

One step (`run`) fetches the big-endian opcode at PC and moves PC past it. It then decodes the
opcode into nibble, byte and address fields and classifies it into a functional group. Finally
it dispatches within the group to the handler for that opcode.

Modules follow the source files:

| module | file | source |
|---|---|---|
| `Wrappers` | wrappers.dfy | `Option` and `Result` |
| `Bits` | bits.dfy | 8- and 16-bit values, Rust's wrapping and overflowing arithmetic, bitwise AND/OR/XOR |
| `Memory` | memory.dfy | chip8_core/src/memory.rs |
| `Instructions` | instruction.dfy | chip8_core/src/instruction.rs |
| `Chip8` | chip8.dfy | chip8_core/src/lib.rs: state, lifecycle, fetch, stack |
| `Arithmetic` | arithmetic.dfy | chip8_core/src/executor/arithmetic.rs |
| `FlowControl` | flow_control.dfy | chip8_core/src/executor/flow_control.rs |
| `MemoryOps` | memory_ops.dfy | chip8_core/src/executor/memory.rs |
| `Display` | display.dfy | chip8_core/src/executor/display.rs |
| `Input` | input.dfy | chip8_core/src/executor/input.rs |
| `Executor` | executor.dfy | chip8_core/src/executor/mod.rs, and `run` from lib.rs |

## How the model works

- **Numbers.** `u8` and `u16` are integer subset types. Every place where the Rust code wraps
  (`wrapping_add`, `wrapping_sub`, `overflowing_add`, `overflowing_sub`, `<< 1`) writes the
  wrap out with `%`. AND, OR and XOR are defined bit by bit on naturals, and `Bit(v, k)`
  gives bit `k` of `v`, so a bitwise contract says what happens to every bit.
- **In-place failures.** Handlers mutate the machine in place and can fail after part of
  their effect. A handler therefore returns `Exec`: either `Done(machine)` or
  `Fail(machine, error)`, where the machine carries whatever was changed before the failure.
  Three places depend on this:
  - fetch's PC + 2 survives an invalid opcode
  - a sprite draw that runs past memory keeps the rows it already drew
  - popping with a stack pointer above 16 decrements it before failing
- **Errors.** `Chip8Error` is a plain datatype. `InvalidOpCode` carries the decoded
  instruction instead of a message.
- **Random byte.** CXNN's random byte is a parameter of `ExecuteInstruction` and `Run`.

## Where the model follows the code over the documentation

- 8XY5 and 8XY7 set VF when the subtraction does not borrow, that is when the minuend is `>=`
  the subtrahend. One doc comment says `>`. arithmetic.rs:240-246 is what the model follows.
- FX29 does not mask Vx to a hex digit, although its doc comment says it does. Values above 15
  point past the font (memory.rs:163).
- Pushing onto a full stack fails with `SPError`, not `SPOverflow` (lib.rs:415-423). The
  `checked_add` that could produce `SPOverflow` never fails, because `sp < 16` there.
- FX29 names `crate::consts::FONT_START_ADDRESS`, but chip8_core/src/consts.rs defines only
  the ROM start and the screen size. The model uses the single definition, 0x50, from
  chip8_core/src/memory.rs:23.
- The executor calls `Memory::get`/`get_mut` with an index or a range. memory.rs:121 only
  defines a range-returning `get`, so memory is a plain 4096-byte sequence with Rust slice
  semantics: a range is available exactly when it lies inside memory.

## Model

| member | source | states |
|---|---|---|
| Memory.TryNew | chip8_core/src/memory.rs:55-59 | Construction cannot fail. Every byte is the font byte inside 0x50..0x9F and zero elsewhere. |
| Memory.LoadFont | chip8_core/src/memory.rs:128-130 | The 80 font bytes are at 0x50..0x9F and no other byte changes. |
| Memory.ReadByte | chip8_core/src/memory.rs:71-73 | `Some` exactly when the address is below 4096, and then it is the stored byte. |
| Memory.ReadWord | chip8_core/src/memory.rs:75-79 | `Some` exactly when address + 2 <= 4096. The high byte of the word is `ram[a]` and the low byte is `ram[a+1]` (big-endian). |
| Memory.WriteByte | chip8_core/src/memory.rs:91-97 | `OutOfMemory` exactly when the address is >= 4096. On success only the addressed byte changes. |
| Memory.WriteAt | chip8_core/src/memory.rs:110-116 | `OutOfMemory` exactly when offset + len > 4096. On success the range holds the buffer and every byte outside it is unchanged. |
| Memory.Slice | chip8_core/src/memory.rs:121-123 | A range of memory is available exactly when `lo <= hi <= 4096`, and then it holds the bytes at those addresses. |
| Memory.Size | chip8_core/src/memory.rs:133-135 | The size is the length of the store. |
| Memory.ValidIffReadable | chip8_core/src/memory.rs:138-140 | An address is valid exactly when a byte can be read there, which is exactly when it is below the size. |
| Memory.WriteThenRead | chip8_core/src/memory.rs:91-97 | Reading a written address gives the written value. Every other address reads as before. |
| Memory.ReadWordBytes | chip8_core/src/memory.rs:75-79 | A word is `ram[a] * 256 + ram[a+1]`. |
| Memory.WordRoundTrip | chip8_core/src/memory.rs:75-97 | Writing a word's high and low bytes and then reading the word gives the word back. |
| Memory.WriteAtThenRead | chip8_core/src/memory.rs:110-116 | Each byte of a written buffer reads back at its address. |
| Instructions.Decode | chip8_core/src/instruction.rs:80-96 | The four nibbles are < 16. `nn` is `16*y + n`, `nnn` is `256*x + nn`, and the opcode is `4096*instr + nnn`. |
| Instructions.DecodeEncode | chip8_core/src/instruction.rs:80-96 | Decoding is a bijection between 16-bit opcodes and well-formed instructions. |
| Instructions.DecodeExample | chip8_core/src/instruction.rs:80-96 | 0xABCD decodes to A, B, C, D, 0xCD, 0xBCD. |
| Instructions.ClassifyOpcodes | chip8_core/src/instruction.rs:135-182 | The group of every opcode range follows the classifier's arm table. It covers 00E0/00EE, each top nibble, the n = 0 condition on 5XY0/9XY0, the EX9E/EXA1 pair and the F-group low bytes. Anything unlisted falls back to FlowControl. |
| Executor.DecodeFields | chip8_core/src/instruction.rs:80-96 | The top nibble, low byte and low nibble of the opcode are the `instr`, `nn` and `n` fields. 00E0 and 00EE are exactly their nibble tuples. |
| Chip8.New | chip8_core/src/lib.rs:174-188 | Construction succeeds in the initial state: PC = 0x200, everything else zero or cleared, and the font loaded. The state is valid. |
| Chip8.Reset | chip8_core/src/lib.rs:200-214 | Reset always succeeds in the initial state. |
| Chip8.ResetIsNew | chip8_core/src/lib.rs:200-214 | Reset gives exactly the result of `New`, whatever the prior state, so resetting is idempotent. |
| Chip8.LoadRom | chip8_core/src/lib.rs:230-233 | Fails with `MemoryError(OutOfMemory)` exactly when 0x200 + len > 4096. On success the ROM is at 0x200, other bytes are unchanged and nothing but memory changes. |
| Chip8.LoadRomKeepsFont | chip8_core/src/lib.rs:230-233 | Loading a ROM into a fresh machine leaves the font in place. |
| Chip8.ClearDisplayUpdatedFlag | chip8_core/src/lib.rs:259-261 | The flag is cleared and nothing else changes. |
| Chip8.KeyPress | chip8_core/src/lib.rs:269-273 | A key below 16 becomes 1. Other keys and the rest of the machine are unchanged, and larger indices change nothing. |
| Chip8.KeyRelease | chip8_core/src/lib.rs:281-285 | A key below 16 becomes 0. Other keys and the rest of the machine are unchanged, and larger indices change nothing. |
| Chip8.PressReleaseRoundTrip | chip8_core/src/lib.rs:269-285 | Releasing a key that was up before it was pressed restores the machine. |
| Chip8.TickTimers | chip8_core/src/lib.rs:308-315 | Each timer counts down by one and stops at zero. Nothing else changes. |
| Chip8.TickTimersTimes | chip8_core/src/lib.rs:308-315 | After k ticks each timer is `max(t - k, 0)`. |
| Chip8.TimersRunOut | chip8_core/src/lib.rs:308-369 | The beeper sounds for exactly `st` ticks, and the delay timer finishes after exactly `dt` ticks. |
| Chip8.Fetch | chip8_core/src/lib.rs:395-403 | Succeeds exactly when PC + 2 <= 4096, returning the decoded big-endian word at PC with PC advanced by 2. Otherwise it fails with `PCError(pc)`. |
| Chip8.PushStack | chip8_core/src/lib.rs:414-425 | Fails with `SPError(sp)` exactly when sp >= 16, changing nothing. Otherwise it stores PC in slot sp, increments sp and leaves the other slots unchanged. |
| Chip8.PopStack | chip8_core/src/lib.rs:436-447 | An empty stack fails with `SPOverflow(0)` and SP unchanged. A pointer above 16 fails with `SPError` after the decrement. Otherwise PC is the top slot and sp drops by one. |
| Chip8.PushThenPop | chip8_core/src/lib.rs:414-447 | A pop right after a push restores PC and SP. |
| Chip8.StackIsLifo | chip8_core/src/lib.rs:414-447 | Two pushes come back in reverse order. |
| Arithmetic.SetVxToNn | chip8_core/src/executor/arithmetic.rs:32-39 | Vx := NN and no other register changes. `InvalidRegister` exactly when x >= 16. |
| Arithmetic.AddNnToVx | chip8_core/src/executor/arithmetic.rs:64-71 | Vx + 256·carry equals old Vx + NN. VF is not written. |
| Arithmetic.SetVxToVy | chip8_core/src/executor/arithmetic.rs:85-96 | Vx := Vy. Invalid y is reported before invalid x. |
| Arithmetic.OrVxVy | chip8_core/src/executor/arithmetic.rs:111-122 | Each bit of the new Vx is set exactly when it is set in old Vx or in Vy. Only Vx changes. |
| Arithmetic.AndVxVy | chip8_core/src/executor/arithmetic.rs:137-148 | Each bit of the new Vx is set exactly when it is set in both. Only Vx changes. |
| Arithmetic.XorVxVy | chip8_core/src/executor/arithmetic.rs:163-174 | Each bit of the new Vx is set exactly when it is set in exactly one. Only Vx changes. |
| Arithmetic.XorTwiceRestores | chip8_core/src/executor/arithmetic.rs:163-174 | Applying 8XY3 twice with x != y gives back the original machine. |
| Arithmetic.AddVxVy | chip8_core/src/executor/arithmetic.rs:194-212 | VF = 1 exactly when Vx + Vy > 255, and new Vx + 256·VF = old Vx + Vy. VF is written last, so it wins when x = F. |
| Arithmetic.SubVxVy | chip8_core/src/executor/arithmetic.rs:231-248 | VF = 1 exactly when Vx >= Vy, and new Vx = Vx − Vy + 256·(1 − VF). |
| Arithmetic.AddThenSubRestores | chip8_core/src/executor/arithmetic.rs:194-248 | 8XY4 followed by 8XY5 gives Vx back, whatever the carry was. |
| Arithmetic.SubVyVx | chip8_core/src/executor/arithmetic.rs:299-316 | VF = 1 exactly when Vy >= Vx, and new Vx = Vy − Vx + 256·(1 − VF). |
| Arithmetic.ShiftVxRight | chip8_core/src/executor/arithmetic.rs:266-280 | VF is old bit 0 and 2·new Vx + VF = old Vx. Vy is not read. |
| Arithmetic.ShiftVxLeft | chip8_core/src/executor/arithmetic.rs:334-348 | VF is old bit 7, also when x = F, because the flag is written last. For x != F, new Vx + 256·VF = 2·old Vx. |
| Arithmetic.SetVxToRandomAndNn | chip8_core/src/executor/arithmetic.rs:369-376 | Each bit of the new Vx is set exactly when it is set in both NN and the random byte, so Vx is `rnd & NN` and at most NN. Only Vx changes. |
| FlowControl.ClearScreen | chip8_core/src/executor/flow_control.rs:23-28 | Every pixel is 0, the display flag is set and nothing else changes. |
| FlowControl.ReturnFromSubroutine | chip8_core/src/executor/flow_control.rs:44-48 | PC := top of stack and sp − 1. It fails exactly when sp = 0 or sp > 16: with `SPOverflow(0)` and nothing changed on an empty stack, and with `SPError(sp − 1)` after the decrement when sp > 16. |
| FlowControl.JumpToAddress | chip8_core/src/executor/flow_control.rs:67-71 | PC := NNN and nothing else changes. |
| FlowControl.CallSubroutine | chip8_core/src/executor/flow_control.rs:92-97 | Pushes PC and sets PC := NNN. On a full stack it fails with PC unchanged. |
| FlowControl.CallThenReturn | chip8_core/src/executor/flow_control.rs:44-97 | A return right after a call restores PC and SP. |
| FlowControl.SkipIfVxEqualsNn | chip8_core/src/executor/flow_control.rs:116-126 | PC moves by 2, wrapping, exactly when Vx = NN. Nothing else changes. |
| FlowControl.SkipIfVxNotEqualsNn | chip8_core/src/executor/flow_control.rs:145-155 | PC moves by 2, wrapping, exactly when Vx != NN. |
| FlowControl.SkipIfVxEqualsVy | chip8_core/src/executor/flow_control.rs:174-188 | PC moves by 2 exactly when Vx = Vy. Invalid x is reported before invalid y. |
| FlowControl.SkipIfVxNotEqualsVy | chip8_core/src/executor/flow_control.rs:207-221 | PC moves by 2 exactly when Vx != Vy. |
| FlowControl.JumpToV0PlusNnn | chip8_core/src/executor/flow_control.rs:244-252 | PC + 65536·carry = NNN + V0, and nothing else changes. |
| MemoryOps.SetIToNnn | chip8_core/src/executor/memory.rs:28-31 | I := NNN. |
| MemoryOps.SetVxToDelayTimer | chip8_core/src/executor/memory.rs:49-56 | Vx := dt and only Vx changes. |
| MemoryOps.SetDelayTimerToVx | chip8_core/src/executor/memory.rs:74-81 | dt := Vx and nothing else changes. |
| MemoryOps.SetSoundTimerToVx | chip8_core/src/executor/memory.rs:100-107 | st := Vx and nothing else changes. |
| MemoryOps.DelayTimerRoundTrip | chip8_core/src/executor/memory.rs:49-81 | FX15 followed by FX07 reads back the value written. |
| MemoryOps.AddVxToI | chip8_core/src/executor/memory.rs:126-133 | I + 65536·carry = old I + Vx. Only I changes, and VF is not written. |
| MemoryOps.SetIToFontLocation | chip8_core/src/executor/memory.rs:157-165 | I = 0x50 + 5·Vx with no masking. For a hex digit the five glyph bytes lie inside the font. |
| MemoryOps.Bcd | chip8_core/src/executor/memory.rs:204-206 | Three digits, each <= 9, with 100a + 10b + c = the byte. |
| MemoryOps.StoreBcdOfVx | chip8_core/src/executor/memory.rs:194-207 | `InvalidRegister(x)` when x >= 16, checked first. Otherwise `IndexError(I)` exactly when I + 3 > 4096, and on success the digits of Vx are at I..I+2 and no other byte changes. A failure changes nothing. |
| MemoryOps.StoreRegistersToMemory | chip8_core/src/executor/memory.rs:232-244 | `IndexError(I)` exactly when I + x >= 4096. Otherwise mem[I+k] = Vk for k <= x, other bytes are unchanged and only memory changes. |
| MemoryOps.LoadRegistersFromMemory | chip8_core/src/executor/memory.rs:269-281 | Same failure condition. Otherwise Vk = mem[I+k] for k <= x, registers above x are unchanged and only registers change. |
| MemoryOps.StoreThenLoad | chip8_core/src/executor/memory.rs:232-281 | FX55 followed by FX65 with the same I and x changes nothing. |
| Display.SpriteMaskBit | chip8_core/src/executor/display.rs:84 | `b & (0x80 >> col)` is nonzero exactly when bit 7 − col of b is set: the most significant bit is the leftmost pixel. |
| Display.DrawRow | chip8_core/src/executor/display.rs:78-94 | Each covered on-screen pixel of the row is flipped and columns past 63 are skipped. The collision flag is set exactly when a flipped pixel was on. |
| Display.Visible | chip8_core/src/executor/display.rs:67-71 | The visible height is n clipped at the bottom edge, not wrapped. |
| Display.Reach | chip8_core/src/executor/display.rs:67-76 | Drawing stops at the visible height, or at the first row whose byte lies past memory. |
| Display.DrawRows | chip8_core/src/executor/display.rs:67-97 | Fails exactly when a visible row's byte lies past memory. The payload is that row's address, and only the framebuffer, VF and the display flag change. |
| Display.DrawRowsFlag | chip8_core/src/executor/display.rs:61-92 | VF ends as 1 exactly when a pixel covered by the drawn rows was on. |
| Display.DrawRowsPixels | chip8_core/src/executor/display.rs:67-94 | Exactly the pixels covered by the drawn rows are flipped. |
| Display.Origin | chip8_core/src/executor/display.rs:57-58 | The origin is (Vx mod 64, Vy mod 32). |
| Display.DrawSprite | chip8_core/src/executor/display.rs:47-99 | x is checked before y. `IndexError` happens exactly when the visible rows run past memory, with payload `max(I, 4096)`. Only the framebuffer, VF and (on success) the display flag change. |
| Display.DrawSpriteEffect | chip8_core/src/executor/display.rs:47-99 | Exactly the covered pixels are flipped and VF = 1 exactly when one was on. On success every visible row was drawn. |
| Display.DrawKeepsValid | chip8_core/src/executor/display.rs:90-93 | Pixels stay 0 or 1. |
| Display.DrawTwiceRestores | chip8_core/src/executor/display.rs:84-93 | Drawing the same sprite twice at the same place restores the framebuffer. |
| Display.CollidesAfterFlip | chip8_core/src/executor/display.rs:90-93 | After a draw, a covered pixel is on exactly where it was off before. |
| Display.SecondDrawCollides | chip8_core/src/executor/display.rs:90-93 | The second draw collides exactly when the first turned some pixel on. |
| Display.BlankDrawNoCollision | chip8_core/src/executor/display.rs:61-92 | A draw onto a blank screen leaves VF = 0. |
| Display.FlipBinary | chip8_core/src/executor/display.rs:93 | `p ^ 1` is `1 - p` for a 0/1 pixel. |
| Input.KeyOf | chip8_core/src/executor/input.rs:29-36 | `InvalidRegister(x)`, then `InvalidKey(Vx)` when Vx > 15, otherwise the state of key Vx. |
| Input.SkipIfKeyPressed | chip8_core/src/executor/input.rs:28-42 | PC moves by 2 exactly when key Vx is down. Errors change nothing. |
| Input.SkipIfKeyNotPressed | chip8_core/src/executor/input.rs:62-76 | PC moves by 2 exactly when key Vx is up. |
| Input.SkipsAreComplementary | chip8_core/src/executor/input.rs:28-76 | Exactly one of EX9E and EXA1 skips. |
| Input.FirstPressed | chip8_core/src/executor/input.rs:105-114 | Returns the lowest pressed key, or none exactly when no key is down. |
| Input.WaitWithoutKey | chip8_core/src/executor/input.rs:117-122 | With no key down, FX0A moves PC back by 2 and changes nothing else, whatever X is. |
| Input.WaitForKeyPress | chip8_core/src/executor/input.rs:103-123 | With a key down, Vx := the lowest pressed key (< 16) and only Vx changes; x is checked only then. With no key down, PC + 2 = old PC modulo 65536. |
| Executor.ExecuteFlowControl | chip8_core/src/executor/mod.rs:64-83 | Rejects with `InvalidOpCode` exactly the tuples other than 00EE, 1NNN, 2NNN and BNNN. |
| Executor.FlowControlRouting | chip8_core/src/executor/mod.rs:64-83 | 00EE reaches the return handler. 1NNN, 2NNN and BNNN reach the jump, call and V0-relative jump, each with NNN = opcode mod 0x1000. |
| Executor.SkipRouting | chip8_core/src/executor/mod.rs:103-124 | 3XNN, 4XNN, 5XY0, 9XY0, EX9E and EXA1 reach their skip handlers, with X, Y and NN read off the opcode's digits. |
| Executor.RegisterRouting | chip8_core/src/executor/mod.rs:141-167 | 6XNN, 7XNN and each 8XY0-8XYE reach their handler, with X and Y in that order. The shifts take only X. |
| Executor.MemoryTimerInputRouting | chip8_core/src/executor/mod.rs:187-304 | ANNN reaches `SetIToNnn` with NNN. FX07, FX0A, FX15, FX18, FX1E, FX29, FX33, FX55 and FX65 reach their handler with X. |
| Executor.DisplayRandomRouting | chip8_core/src/executor/mod.rs:224-335 | 00E0 clears the screen. DXYN draws with X, Y and N. CXNN reaches the random handler with X, NN and the random byte of the step. |
| Executor.InvalidOpCodeIffUnknown | chip8_core/src/executor/mod.rs:35-335 | Dispatch fails with `InvalidOpCode` exactly for opcodes outside the 35-instruction set, and then changes nothing. |
| Executor.NoInvalidRegister | chip8_core/src/executor/mod.rs:35-335 | No decoded instruction fails with `InvalidRegister`. |
| Executor.KeyboardUnchanged | chip8_core/src/executor/input.rs:28-123 | No instruction changes the key states. |
| Executor.Run | chip8_core/src/lib.rs:382-385 | `PCError(pc)` exactly when PC + 2 > 4096, with the machine unchanged. |
| Executor.RunExecutesFetched | chip8_core/src/lib.rs:382-403 | When PC + 2 <= 4096, a step executes the big-endian opcode at PC on the machine with PC + 2. With the routing lemmas this fixes the effect of every valid opcode. |
| Executor.ExecuteKeepsValid | chip8_core/src/executor/mod.rs:35-46 | Executing any decoded instruction keeps sp <= 16 and pixels and keys at 0 or 1. |
| Executor.RunKeepsValid | chip8_core/src/lib.rs:382-385 | A step keeps sp <= 16 and pixels and keys at 0 or 1. |
| Executor.UnknownOpcodeSkipped | chip8_core/src/lib.rs:382-403 | An unknown opcode fails with `InvalidOpCode`, and the only change is PC + 2. |
| Executor.WaitRepeatsUntilKey | chip8_core/src/executor/input.rs:118-121 | FX0A with no key down leaves the whole machine unchanged across a step. |
| Executor.CallThenReturnSteps | chip8_core/src/executor/flow_control.rs:44-97 | A 2NNN step jumps to NNN with sp + 1. A following 00EE step resumes at call site + 2 with sp restored. |

## Left out

- The random number generator (`rand::random` in arithmetic.rs): the random byte is a parameter.
- Human-readable output: the `Display` formatting of instructions, the error message strings,
  and the string payload of `InvalidOpCode`, which carries the decoded instruction instead.
- chip8_driver, chip8_desktop and chip8_tauri: wall-clock pacing, windowing, rendering, file
  I/O and async UI glue are not part of this model.
- Unreachable error paths. Each is absent from the model because it cannot occur:
  - `last_mut()` on the register file failing, which would give `InvalidRegister(0xF)`.
  - The framebuffer `get_mut` failing (`FrameBufferOverflow`). A clipped pixel index is always
    below 2048, and the model's framebuffer type makes this a proof obligation.
  - The `checked_add` in `push_stack` failing: the stack pointer is below 16 there.
  - `MemoryError::Unrecoverable`, which nothing produces.
- Arithmetic panics: the core has no arithmetic that could panic. `DrawSprite` proves that the
  `IndexError` payload `I + row` is `max(I, 4096)`, so it never wraps. FX29's `Vx * 5` is at
  most 1275.
- Chip8.Framebuffer, Chip8.IsDisplayUpdated, Chip8.DelayTimer, Chip8.SoundTimer, Chip8.ShouldBeep,
  Chip8.DelayTimerFinished: plain accessors without a contract of their own. Their meaning is
  stated through `TimersRunOut`, `ClearDisplayUpdatedFlag` and the handlers' contracts.
- Executor.ExecuteConditionalSkip, the other six group dispatchers and Executor.ExecuteInstruction:
  no per-function contract. Which handler each opcode reaches is stated from the opcode's digits
  by the five routing lemmas. Rejection is stated by `InvalidOpCodeIffUnknown`. Validity is
  stated by `ExecuteKeepsValid`.
- The test files under chip8_core/src/tests and the `run_instruction` test helper. They served
  only as behavioural evidence.
