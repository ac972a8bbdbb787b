# CHIP-8 interpreter core in Dafny

This project models the fetch-decode-execute core of a small CHIP-8 interpreter written in Rust. It also proves properties of that model.

The interpreter has two snapshots:
- `src/cpu/cpu.rs` is the current one. It covers the whole instruction set, which is run from a ggez game loop.
- `src/cpu.rs` is an earlier headless one. It knows five opcodes and runs them in a plain `loop`.

The machine state is the following:
- sixteen 8-bit registers V0–VF;
- a 4 KiB memory;
- the program counter;
- a sixteen-entry return stack of 16-bit addresses and its stack pointer;
- the 16-bit pointer register I;
- a 64 × 32 monochrome display of 2048 booleans.

`CPU::default` writes a boot image into memory:
- the jump `12 00` at address 0;
- the sixteen 5-byte glyphs of the font from address 2 on.

The program itself is copied to 0x200.

The model has two layers:
- **Values.** `Semantics` describes the machine as a datatype and every instruction as a function. Its `Step` fetches, advances the program counter by 2, decodes and executes. `Run` performs one step for each random byte it is given.
- **Class.** `Engine.Cpu` is a class with `array` fields that updates them in place, one method per Rust method. Each method is proved to realise the corresponding function on its abstract `State()`. The sprite drawing keeps the source's nested loops, with the `break` clipping of rows and columns.

Every panic of the source becomes a `Faults.Fault` value:
- an explicit `panic!`;
- a `todo!` for an opcode the dispatch does not recognise;
- an index past the end of an array or slice.

The source draws `Cxkk`'s byte with `rand::thread_rng().gen()`; the model takes each cycle's random byte as a parameter.

The modules are:
- `Bits`: the byte and word types, bits, and the overflowing and wrapping additions.
- `Opcode`: nibbles, `nnn`, `kk`, the fetch and the decode table.
- `Assembly`: the encoder that inverts the decode table.
- `Alu`: the register-file instructions.
- `Screen`: the sprite blit and the collision flag.
- `Semantics` and `Engine`: the current snapshot, as values and as a class.
- `Legacy` and `LegacyEngine`: the earlier snapshot, as values and as a class.
- `Properties`: laws that relate several operations.
- `Scenarios`: the repository's test programs, run through the model.

## Model

| member | source | states |
|---|---|---|
| Opcode.Decompose | src/cpu/cpu.rs:387-393 | the four nibbles c, x, y, d recombine to the opcode: 0x1000·c + 0x100·x + 0x10·y + d |
| Opcode.Compose | src/cpu/cpu.rs:387-393 | decomposing the word built from four nibbles gives those nibbles back |
| Opcode.Nnn | src/cpu/cpu.rs:39 | `op & 0x0FFF` is the address spelled by the x, y and d nibbles |
| Opcode.Kk | src/cpu/cpu.rs:40 | `op & 0x00FF` is the byte spelled by the y and d nibbles |
| Opcode.ReadOpcode | src/cpu/cpu.rs:155-161 | the fetch succeeds exactly when pc + 1 is inside memory; the high byte is memory[pc] and the low byte memory[pc+1]; otherwise it fails with an index out of bounds |
| Opcode.Decode | src/cpu/cpu.rs:42-73 | an opcode the table does not recognise is kept whole in `Unknown`, which is what `todo!` reports |
| Opcode.Dispatch | src/cpu/cpu.rs:42-73 | the match on (c, x, y, d) falls to `Unknown` carrying the opcode only when no arm matches |
| Assembly.EncodeDecode | src/cpu/cpu.rs:42-73 | decoding loses nothing: every 16-bit opcode is the encoding of its decoding |
| Assembly.DecodeEncode | src/cpu/cpu.rs:42-73 | every instruction, except an `Unknown` that hides a recognised opcode, is decoded back from its encoding |
| Bits.Bitwise | src/cpu/cpu.rs:259-272 | a bitwise operation fits in its width and acts on each bit independently |
| Bits.BitOr | src/cpu/cpu.rs:259-262 | bit j of `a \| b` is bit j of a or bit j of b |
| Bits.BitAnd | src/cpu/cpu.rs:264-267 | bit j of `a & b` is bit j of a and bit j of b; the result is no larger than either operand |
| Bits.BitXor | src/cpu/cpu.rs:269-272 | bit j of `a ^ b` is set exactly when bits j of a and b differ |
| Bits.XorInvolutive | src/cpu/cpu.rs:269-272 | xor with the same byte twice gives the original byte back |
| Bits.OverflowingAdd | src/cpu/cpu.rs:166 | `overflowing_add` returns the sum modulo 256 and a flag that accounts for the lost 256 |
| Bits.OverflowingSub | src/cpu/cpu.rs:276-277 | `overflowing_sub` returns the difference modulo 256 and a flag that accounts for the borrowed 256 |
| Bits.WrappingAdd8 | src/cpu/cpu.rs:175-177 | an 8-bit add in a release build is the sum, or the sum less 256 |
| Bits.WrappingAdd16 | src/cpu/cpu.rs:333-335 | a 16-bit add in a release build is the sum, or the sum less 65536 |
| Alu.LoadInRegister | src/cpu/cpu.rs:223-229 | 6xkk: Vx becomes kk and no other register changes |
| Alu.AddConstant | src/cpu/cpu.rs:175-177 | 7xkk: Vx becomes Vx + kk modulo 256, VF is left alone, and no other register changes |
| Alu.CopySecondToFirst | src/cpu/cpu.rs:255-257 | 8xy0: Vx becomes Vy and no other register changes |
| Alu.Or | src/cpu/cpu.rs:259-262 | 8xy1: every bit of Vx becomes the or of the bits of Vx and Vy; no other register changes |
| Alu.And | src/cpu/cpu.rs:264-267 | 8xy2: every bit of Vx becomes the and of the bits of Vx and Vy; no other register changes |
| Alu.Xor | src/cpu/cpu.rs:269-272 | 8xy3: every bit of Vx becomes the xor of the bits of Vx and Vy; no other register changes |
| Alu.AddRegisters | src/cpu/cpu.rs:163-173 | 8xy4: VF is the carry of Vx + Vy; for x ≠ F, Vx plus 256·carry is the exact sum; registers other than x and F keep their values |
| Alu.SubRegisters | src/cpu/cpu.rs:274-282 | 8xy5: VF is 1 exactly when Vy > Vx; for x ≠ F, Vx less 256·VF is the exact difference; registers other than x and F keep their values |
| Alu.SubRegistersSwapped | src/cpu/cpu.rs:298-306 | 8xy7: VF is 1 exactly when Vx > Vy; for x ≠ F, Vx less 256·VF is Vy − Vx; registers other than x and F keep their values |
| Alu.ShiftRight | src/cpu/cpu.rs:284-289 | 8xy6: for x ≠ F, 2·Vx' + VF is the old Vx and bit j of Vx' is bit j+1 of the old Vx; with x = F the shift is written after the flag and wins, so VF ends 0 |
| Alu.ShiftLeft | src/cpu/cpu.rs:291-296 | 8xyE: for x ≠ F, Vx' + 256·VF is twice the old Vx; with x = F the shift is written after the flag and wins, so VF ends twice the old top bit |
| Alu.RandomAndConstantIn | src/cpu/cpu.rs:308-311 | Cxkk: every bit of Vx is the and of the random byte's bit and kk's bit, so Vx ≤ kk; no other register changes |
| Alu.AddThenSubtract | src/cpu/cpu.rs:163-173 | subtracting Vy after adding it restores Vx and reproduces the carry as the borrow |
| Alu.ShiftLeftThenRight | src/cpu/cpu.rs:284-296 | a left shift followed by a right shift clears the top bit of Vx and leaves VF at 0 |
| Alu.XorTwice | src/cpu/cpu.rs:269-272 | xoring Vy into Vx twice restores the whole register file |
| Screen.DisplayIndex | src/cpu/cpu.rs:371-374 | the intended display index of (row, column) lies below 2048 and gives back row and column by division by 64 |
| Screen.DisplayIndexAsWritten | src/cpu/cpu.rs:371-374 | the index as written in u8 arithmetic is 64·row + column modulo 256 |
| Screen.DisplayIndexAsWrittenAliases | src/cpu/cpu.rs:371-376 | the u8 index sends row 4, column 0 to the same cell as row 0, column 0, whereas the intended index keeps them apart |
| Screen.DisplayIndexInjective | src/cpu/cpu.rs:371-376 | distinct on-screen pixels have distinct intended indices |
| Screen.Blit | src/cpu/cpu.rs:362-378 | the display after drawing is the old display with each visited pixel xored with its sprite bit, and every other pixel unchanged |
| Screen.PixelCollision | src/cpu/cpu.rs:375-377 | the flag written at one pixel is 1 exactly when the pixel was lit and the sprite bit is set |
| Screen.LastCollision | src/cpu/cpu.rs:358-378 | the VF left by a draw is 0 or 1; that it is the last visited pixel's collision is what `Engine.Cpu.DrawSprite` and `Screen.SecondDrawCollision` state |
| Screen.RowDone | src/cpu/cpu.rs:367-370 | a row ends after 8 columns or at the right edge (the `break 'cols`) |
| Screen.BottomClipped | src/cpu/cpu.rs:362-365 | once a row falls below the screen nothing more is drawn (the `break 'rows`) |
| Screen.PixelStep | src/cpu/cpu.rs:371-376 | one inner iteration flips exactly the pixel (row, column) by the sprite bit |
| Screen.BlitTwice | src/cpu/cpu.rs:355-380 | drawing the same sprite at the same place twice restores the display |
| Screen.SecondDrawCollision | src/cpu/cpu.rs:358-378 | redrawing a sprite reports a collision exactly when the last visited bit is set and that pixel was dark before the first draw |
| Screen.CollisionOverwritten | src/cpu/cpu.rs:377 | VF holds only the last pixel's collision: a sprite that erases a pixel can leave VF at 0 |
| Semantics.Default | src/cpu/cpu.rs:86-117 | the boot image (jump to 0x200, then the font) heads memory; everything else is zero, as are pc, sp, I, registers, stack and display |
| Semantics.LoadProgram | src/cpu/cpu.rs:121 | the program is copied to 0x200 when it fits below 0x1000 and nothing else changes; a longer one fails with an index out of bounds |
| Semantics.New | src/cpu/cpu.rs:119-124 | a program of up to 0xE00 bytes gives the default machine with the given registers, the program at 0x200 and the boot image everywhere else in memory; a longer one fails |
| Semantics.NewWithMemory | src/cpu/cpu.rs:127-131 | a program of up to 0xE00 bytes gives the default machine (boot image, font, zero registers, pc 0, empty stack, dark display) with the program bytes at 0x200 and every other memory byte as in the default; a longer one fails |
| Semantics.Call | src/cpu/cpu.rs:179-189 | 2nnn fails with stack overflow exactly when sp ≥ 16; otherwise it pushes pc as u16 on top, increments sp, jumps to nnn, and leaves the other stack slots, registers, memory, I and display alone |
| Semantics.Ret | src/cpu/cpu.rs:191-198 | 00EE fails with stack underflow exactly when sp = 0; otherwise it pops the top entry into pc and changes nothing but sp and pc |
| Semantics.JumpTo | src/cpu/cpu.rs:200-209 | 1nnn succeeds exactly when the target is below 0xFFF and then changes only pc; otherwise it fails with an illegal jump |
| Semantics.OffsetJumpTo | src/cpu/cpu.rs:215-221 | Bnnn jumps to nnn + V0 exactly when that is below 0xFFF; otherwise it fails with an illegal jump |
| Semantics.IsLegalAddress | src/cpu/cpu.rs:207-209 | an address is legal exactly when a whole two-byte opcode can be fetched there from a 4 KiB memory |
| Semantics.SkipIfEqual | src/cpu/cpu.rs:231-235 | 3xkk advances pc by 2 exactly when Vx = kk and changes nothing else |
| Semantics.SkipIfDifferent | src/cpu/cpu.rs:237-241 | 4xkk advances pc by 2 exactly when Vx ≠ kk and changes nothing else |
| Semantics.SkipIfEqualRegisters | src/cpu/cpu.rs:243-247 | 5xy0 advances pc by 2 exactly when Vx = Vy and changes nothing else |
| Semantics.SkipIfDifferentRegisters | src/cpu/cpu.rs:249-253 | 9xy0 advances pc by 2 exactly when Vx ≠ Vy and changes nothing else |
| Semantics.SetPointerRegister | src/cpu/cpu.rs:211-213 | Annn sets I to nnn and changes nothing else |
| Semantics.AddToPointerRegister | src/cpu/cpu.rs:333-335 | Fx1E adds Vx to I modulo 65536 and changes nothing else |
| Semantics.PointToFontChar | src/cpu/cpu.rs:347-353 | Fx29 fails exactly when Vx ≥ 16; otherwise I becomes 2 + 5·Vx, where the boot image holds the glyph of Vx |
| Semantics.StoreAsBcd | src/cpu/cpu.rs:337-345 | Fx33 fails exactly when I + 2 is past memory; otherwise the three bytes at I are decimal digits that spell Vx, and all other memory is unchanged |
| Semantics.StoreRegistersUpTo | src/cpu/cpu.rs:313-321 | Fx55 copies V0..Vx to memory at I and leaves all other memory alone; it fails when I + x ≥ 0x1000, with the source's message only past 0x1000 and with an index out of bounds at exactly 0x1000 |
| Semantics.LoadRegistersUpTo | src/cpu/cpu.rs:323-331 | Fx65 copies memory at I into V0..Vx and leaves the other registers alone; it fails exactly like Fx55 |
| Semantics.DrawAt | src/cpu/cpu.rs:355-380 | Dxyn fails exactly when the sprite slice runs past memory; otherwise it blits the n bytes at I at (Vx mod 64, Vy mod 32), VF becomes the collision bit of the last pixel visited (`Screen.LastCollision`), and V0–VE are unchanged |
| Semantics.ClearDisplay | src/cpu/cpu.rs:382-384 | 00E0 darkens every pixel and changes nothing else |
| Semantics.Execute | src/cpu/cpu.rs:42-74 | the cycle halts exactly on the halt instruction, and an unrecognised opcode fails as unimplemented with that opcode |
| Semantics.Step | src/cpu/cpu.rs:34-74 | one turn of the update loop: a fetch past memory fails; the cycle halts exactly on opcode 0000, with pc advanced by 2; an unknown opcode fails as unimplemented; a sequential instruction that carries on leaves pc advanced by 2; 2nnn and 00EE are `Call` and `Ret` of the machine whose pc is already advanced, so a call pushes the address after itself |
| Semantics.Run | src/cpu/cpu.rs:34-75 | the loop of turns, one per random byte, stopping at the first halt or fault; a run halts only just past a 0000 opcode |
| Engine.Cpu.Default | src/cpu/cpu.rs:86-117 | the fresh arrays hold exactly `Semantics.Default` |
| Engine.Cpu.New | src/cpu/cpu.rs:119-124 | builds fresh arrays holding `Semantics.New`, or reports its fault |
| Engine.Cpu.NewWithMemory | src/cpu/cpu.rs:127-131 | builds fresh arrays holding `Semantics.NewWithMemory`, or reports its fault |
| Engine.Cpu.LoadProgram | src/cpu/cpu.rs:121 | the memory array is updated in place as `Semantics.LoadProgram` says, or the fault is reported and memory is untouched |
| Engine.Cpu.PeekRegister | src/cpu/cpu.rs:151-153 | returns register `index` when index < 16; otherwise it fails with an index out of bounds |
| Engine.Cpu.ReadOpcode | src/cpu/cpu.rs:155-161 | the fetch from the memory array equals `Opcode.ReadOpcode` |
| Engine.Cpu.AddRegisters | src/cpu/cpu.rs:163-173 | the register array becomes `Alu.AddRegisters` of its old contents |
| Engine.Cpu.AddConstant | src/cpu/cpu.rs:175-177 | the register array becomes `Alu.AddConstant` of its old contents |
| Engine.Cpu.Call | src/cpu/cpu.rs:179-189 | the stack array, sp and pc realise `Semantics.Call`: on success its new state, on failure its fault and no change |
| Engine.Cpu.Ret | src/cpu/cpu.rs:191-198 | sp and pc realise `Semantics.Ret` |
| Engine.Cpu.JumpTo | src/cpu/cpu.rs:200-209 | pc realises `Semantics.JumpTo` |
| Engine.Cpu.SetPointerRegister | src/cpu/cpu.rs:211-213 | the new state is `Semantics.SetPointerRegister` of the old |
| Engine.Cpu.OffsetJumpTo | src/cpu/cpu.rs:215-221 | pc realises `Semantics.OffsetJumpTo` |
| Engine.Cpu.LoadInRegister | src/cpu/cpu.rs:223-229 | the register array becomes `Alu.LoadInRegister` of its old contents |
| Engine.Cpu.SkipIfEqual | src/cpu/cpu.rs:231-235 | the new state is `Semantics.SkipIfEqual` of the old |
| Engine.Cpu.SkipIfDifferent | src/cpu/cpu.rs:237-241 | the new state is `Semantics.SkipIfDifferent` of the old |
| Engine.Cpu.SkipIfEqualRegisters | src/cpu/cpu.rs:243-247 | the new state is `Semantics.SkipIfEqualRegisters` of the old |
| Engine.Cpu.SkipIfDifferentRegisters | src/cpu/cpu.rs:249-253 | the new state is `Semantics.SkipIfDifferentRegisters` of the old |
| Engine.Cpu.CopySecondToFirst | src/cpu/cpu.rs:255-257 | the register array becomes `Alu.CopySecondToFirst` of its old contents |
| Engine.Cpu.Or | src/cpu/cpu.rs:259-262 | the register array becomes `Alu.Or` of its old contents |
| Engine.Cpu.And | src/cpu/cpu.rs:264-267 | the register array becomes `Alu.And` of its old contents |
| Engine.Cpu.Xor | src/cpu/cpu.rs:269-272 | the register array becomes `Alu.Xor` of its old contents |
| Engine.Cpu.SubRegisters | src/cpu/cpu.rs:274-282 | the register array becomes `Alu.SubRegisters` of its old contents |
| Engine.Cpu.ShiftRight | src/cpu/cpu.rs:284-289 | the register array becomes `Alu.ShiftRight` of its old contents |
| Engine.Cpu.ShiftLeft | src/cpu/cpu.rs:291-296 | the register array becomes `Alu.ShiftLeft` of its old contents |
| Engine.Cpu.SubRegistersSwapped | src/cpu/cpu.rs:298-306 | the register array becomes `Alu.SubRegistersSwapped` of its old contents |
| Engine.Cpu.RandomAndConstantIn | src/cpu/cpu.rs:308-311 | the register array becomes `Alu.RandomAndConstantIn` of its old contents and the given random byte |
| Engine.Cpu.StoreRegistersUpTo | src/cpu/cpu.rs:313-321 | the memory array realises `Semantics.StoreRegistersUpTo` |
| Engine.Cpu.LoadRegistersUpTo | src/cpu/cpu.rs:323-331 | the register array realises `Semantics.LoadRegistersUpTo` |
| Engine.Cpu.AddToPointerRegister | src/cpu/cpu.rs:333-335 | the new state is `Semantics.AddToPointerRegister` of the old |
| Engine.Cpu.StoreAsBcd | src/cpu/cpu.rs:337-345 | the memory array realises `Semantics.StoreAsBcd` |
| Engine.Cpu.PointToFontChar | src/cpu/cpu.rs:347-353 | I realises `Semantics.PointToFontChar` |
| Engine.Cpu.DrawAt | src/cpu/cpu.rs:355-380 | the display and register arrays realise `Semantics.DrawAt` |
| Engine.Cpu.DrawSprite | src/cpu/cpu.rs:358-379 | the two nested loops leave the display as `Screen.Blit` of the old one, with VF set to `Screen.LastCollision` and the other registers unchanged |
| Engine.Cpu.DrawRow | src/cpu/cpu.rs:367-378 | one pass of the inner loop draws one more sprite row and sets VF to that row's last collision |
| Engine.Cpu.ClearDisplay | src/cpu/cpu.rs:382-384 | the new state is `Semantics.ClearDisplay` of the old |
| Engine.Cpu.Execute | src/cpu/cpu.rs:42-74 | the in-place dispatch ends in the outcome of `Semantics.Execute` |
| Engine.Cpu.Step | src/cpu/cpu.rs:34-74 | one fetch, pc += 2, decode and execute on the arrays ends in the outcome of `Semantics.Step` |
| Engine.Cpu.Run | src/cpu/cpu.rs:34-75 | the loop of cycles ends in the outcome of `Semantics.Run` on the same random bytes |
| Legacy.New | src/cpu.rs:10-18 | the earlier `CPU::new` holds the given registers and memory, pc 0, sp 0 and an empty stack |
| Legacy.Decode | src/cpu.rs:25-36 | the earlier table knows exactly 0000 (halt), 00EE, 2nnn, 7xkk and 8xy4, with the address, register and byte fields taken from the opcode; any other opcode is kept whole in `Unknown` |
| Legacy.Call | src/cpu.rs:65-75 | the call fails exactly when sp ≥ 16: with stack overflow past 16, and with an index out of bounds at exactly 16, which the guard `>` lets through; otherwise it pushes pc as u16 and jumps |
| Legacy.Ret | src/cpu.rs:77-84 | the return fails with stack underflow at sp = 0 and with an index out of bounds past 16; otherwise it pops into pc and changes nothing else |
| Legacy.Step | src/cpu.rs:21-37 | a fetch past memory fails; the cycle halts exactly on opcode 0000, with pc advanced by 2; any opcode outside the table fails as unimplemented; 8xy4 and 7xkk advance pc by 2 and change only the registers, as `Alu.AddRegisters` and `Alu.AddConstant` say; 2nnn and 00EE are `Legacy.Call` and `Legacy.Ret` of the machine whose pc is already advanced |
| Legacy.Run | src/cpu.rs:20-39 | at most `fuel` turns of the `'running` loop, stopping at the first halt or fault; a run halts only just past a 0000 opcode |
| LegacyEngine.Cpu.New | src/cpu.rs:10-18 | the fresh arrays hold exactly `Legacy.New` |
| LegacyEngine.Cpu.ReadOpcode | src/cpu.rs:41-47 | the fetch from the memory array equals `Opcode.ReadOpcode` |
| LegacyEngine.Cpu.AddRegisters | src/cpu.rs:49-59 | the register array becomes `Alu.AddRegisters` of its old contents |
| LegacyEngine.Cpu.AddConstant | src/cpu.rs:61-63 | the register array becomes `Alu.AddConstant` of its old contents |
| LegacyEngine.Cpu.Call | src/cpu.rs:65-75 | the stack array, sp and pc realise `Legacy.Call` |
| LegacyEngine.Cpu.Ret | src/cpu.rs:77-84 | sp and pc realise `Legacy.Ret` |
| LegacyEngine.Cpu.Step | src/cpu.rs:21-37 | one cycle on the arrays ends in the outcome of `Legacy.Step` |
| LegacyEngine.Cpu.Run | src/cpu.rs:20-39 | the `'running` loop, bounded by `fuel` cycles, ends in the outcome of `Legacy.Run` |
| Properties.CallThenReturn | src/cpu/cpu.rs:179-198 | below a full stack, a call followed by a return restores pc (as u16) and sp, and leaves the pushed address in the vacated slot |
| Properties.StoreThenLoad | src/cpu/cpu.rs:313-331 | Fx55 and Fx65 fail on the same inputs; loading right after storing changes nothing |
| Properties.LoadThenStore | src/cpu/cpu.rs:313-331 | storing right after loading changes nothing, and loading leaves memory alone |
| Properties.DrawTwice | src/cpu/cpu.rs:355-380 | with x and y other than F, running Dxyn twice restores the display |
| Properties.BootJumpsToProgram | src/cpu/cpu.rs:88-89 | the first cycle of a fresh machine executes the boot jump and lands on 0x200 with nothing else changed |
| Properties.RunSplits | src/cpu/cpu.rs:34-75 | running on a + b is running on a and then, if the machine still runs, on b |
| Properties.RunStops | src/cpu/cpu.rs:34-75 | once a run halts or fails, extra cycles change nothing |
| Properties.CallLoopLap | src/cpu/cpu.rs:179-189 | with the boot jump at 0 and a call of 0x000 at 0x200, two cycles from pc 0 push 0x202 and come back to pc 0 with sp one higher |
| Properties.CallLoopOverflows | src/cpu/cpu.rs:179-189 | from any stack depth sp, that loop ends in stack overflow after exactly 2·(16 − sp) + 2 cycles: the remaining laps and then the jump and the failing call |
| Properties.LegacyDecodeAgrees | src/cpu.rs:29-36 | every opcode the earlier table knows decodes to the same instruction in the current table, and the earlier table knows exactly the opcodes the current one decodes to halt, 00EE, 2nnn, 8xy4 or 7xkk |
| Properties.LegacyStepAgrees | src/cpu.rs:21-37 | a cycle of the earlier snapshot either hits its `todo!` or agrees with the current cycle on the shared state |
| Properties.LegacyCallFailsAlike | src/cpu.rs:65-75 | the earlier and current calls fail on the same stack depths and agree when they succeed |
| Scenarios.NestedRound | src/tests/cpu_tests.rs:15-16 | one call of the subroutine at 0x100 adds 2·V1 to V0 and returns past the call |
| Scenarios.NestedCallsSumTo45 | src/tests/cpu_tests.rs:10-21 | with V0 = 5 and V1 = 10, two calls of a subroutine that adds V1 to V0 twice halt with V0 = 45 |
| Scenarios.SeventeenthCallOverflows | src/cpu/cpu_tests.rs:18-24 | sixteen `2000` opcodes at 0x200 end in stack overflow |
| Scenarios.ReturnWithEmptyStackFails | src/cpu/cpu_tests.rs:26-31 | the program `00EE` ends in stack underflow |
| Scenarios.JumpToLastByteFails | src/cpu/cpu_tests.rs:46-52 | the program `1FFF` ends in an illegal jump |
| Scenarios.LoadNumber | src/cpu/cpu_tests.rs:54-59 | the program `60FF` halts with V0 = 0xFF |
| Scenarios.SkipOnConstantSumsTo10 | src/cpu/cpu_tests.rs:61-72 | the constant-comparison skip program halts with V0 = 10 |
| Scenarios.SkipOnRegistersSumsTo14 | src/cpu/cpu_tests.rs:74-87 | the register-comparison skip program halts with V0 = 14 and V1 = 7 |

## Left out

- The ggez window, the drawing of the display, the 30-per-second frame pacing and `main` (`src/cpu/cpu.rs:24-30`, `79-82`, `133-149`) are left out. They are I/O; the display is modelled only as the 2048-pixel frame buffer. src/main.rs is not part of this model.
- Halt (0000) calls `event::quit` in the source. That only asks ggez to stop, and the rest of the current frame's cycles still run. The model ends the run at the halt instead: `Halted` with pc past the opcode.
- `rand::thread_rng().gen()` (src/cpu/cpu.rs:309) is not modelled; each cycle's random byte is a parameter of `Semantics.Step`, `Semantics.Run` and `Engine.Cpu.Run`.
- The model does not include the debug-build overflow panics of `+=` in 7xkk and Fx1E; for those it follows the release build, which wraps.
- The model draws with the intended display index 64·row + column. It leaves out both the release-build wrap of `64 * display_row` in u8 and the debug-build panic on it. The wrap is described under Findings.
- A Rust panic is modelled as a `Fault` value with no machine state, because a panic ends the program. Writes made before the panic are therefore not modelled, such as the first BCD digit that Fx33 stores when only I + 1 or I + 2 is past memory.
- Legacy.Run: the earlier `'running` loop is unbounded; the model runs at most `fuel` cycles and stays `Running` when the fuel ends.
- Engine.Cpu.Run: the source's loop is driven by the frame timer; the model runs one cycle per given random byte.
- Opcode.Decode: the source matches on the decomposed tuple in place; the model decodes to an `Instruction` first and dispatches on it. `Assembly.EncodeDecode` shows that the decoding loses nothing.
- Engine.Cpu.ExecuteControl, Engine.Cpu.ExecuteSkipOrPointer, Engine.Cpu.ExecuteMemory, Engine.Cpu.ExecuteLogic and Engine.Cpu.ExecuteArithmetic: these pieces of the dispatch state their outcome with the random byte fixed at 0, because none of their instructions reads it. `Engine.Cpu.Execute` states the full contract.
- The test `rust_in_action_last_example` in `src/cpu/cpu_tests.rs:4-16` is not modelled. It calls the current `CPU::new` with a 4096-byte array, which that constructor does not accept; the same program is modelled on the earlier snapshot through `src/tests/cpu_tests.rs:10-21`.
- The test `offset_jump` in `src/cpu/cpu_tests.rs:33-44` is not modelled. Bnnn jumps to the absolute address nnn + V0 = 8, inside the font, not to 0x208, so the code does not do what that test expects. The model follows the code (`Semantics.OffsetJumpTo`).
- Screen.LastCollision: CHIP-8 is usually described as setting VF when any pixel of the sprite collides. The source overwrites VF at every visited pixel, so VF is the collision of the last visited pixel. The model follows the source; `Screen.CollisionOverwritten` shows the difference.

## Findings

| source | as written | input that shows it | evidently intended | confidence | as-written member | corrected member |
|---|---|---|---|---|---|---|
| src/cpu/cpu.rs:371-374 | `64 * display_row + display_column` is computed in `u8`, so the display index wraps modulo 256 (release build) | row 4, column 0 gives index 0, the cell of row 0, column 0; only the top four rows are reachable | the index 64·row + column over `usize`, one cell per pixel of the 64 × 32 screen | not executed | Screen.DisplayIndexAsWritten (shown by Screen.DisplayIndexAsWrittenAliases) | Screen.DisplayIndex (proved one-to-one by Screen.DisplayIndexInjective; used by Screen.Blit) |
