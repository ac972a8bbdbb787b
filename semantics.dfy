/** The interpreter of src/cpu/cpu.rs as pure functions over a value of its
    state: one function per `CPU` method, and `Step`, the body of the update
    loop (fetch at `pc`, advance `pc` by 2, decode, dispatch). */
module Semantics {
  import opened Bits
  import opened Faults
  import Opcode
  import Alu
  import Screen

  /** `memory: [u8; 0x1000]`. */
  type Memory = s: seq<byte> | |s| == 0x1000 witness seq(0x1000, _ => 0)
  /** `stack: [u16; 16]`. */
  type ReturnStack = s: seq<word> | |s| == 16 witness seq(16, _ => 0)
  /** `stack_pointer`: `call` refuses to push at 16, so it never exceeds 16. */
  type StackDepth = n: int | 0 <= n <= 16

  /** The fields of `struct CPU`. */
  datatype Machine = Machine(
    registers: Alu.RegisterFile,
    pc: nat,                    // program_counter: usize
    memory: Memory,
    stack: ReturnStack,
    sp: StackDepth,
    pointer: word,              // pointer_register (I)
    display: Screen.Frame)

  /** Where programs are loaded. */
  const ProgramStart: nat := 0x200

  /** The built-in glyphs 0..F, five rows of one byte each. */
  const Font: seq<byte> := [
    0xF0, 0x90, 0x90, 0x90, 0xF0,  0x20, 0x60, 0x20, 0x20, 0x70,
    0xF0, 0x10, 0xF0, 0x80, 0xF0,  0xF0, 0x10, 0xF0, 0x10, 0xF0,
    0x90, 0x90, 0xF0, 0x10, 0x10,  0xF0, 0x80, 0xF0, 0x10, 0xF0,
    0xF0, 0x80, 0xF0, 0x90, 0xF0,  0xF0, 0x10, 0x20, 0x40, 0x40,
    0xF0, 0x90, 0xF0, 0x90, 0xF0,  0xF0, 0x90, 0xF0, 0x10, 0xF0,
    0xF0, 0x90, 0xF0, 0x90, 0x90,  0xE0, 0x90, 0xE0, 0x90, 0xE0,
    0xF0, 0x80, 0x80, 0x80, 0xF0,  0xE0, 0x90, 0x90, 0x90, 0xE0,
    0xF0, 0x80, 0xF0, 0x80, 0xF0,  0xF0, 0x80, 0xF0, 0x80, 0x80]

  /** `init_memory`: a jump to 0x200 (opcode 1200) followed by the font, so the
      font of glyph c starts at 2 + 5 * c. */
  const BootImage: seq<byte> := [0x12, 0x00] + Font

  /** `CPU::default`. */
  function Default(): (m: Machine)
    ensures m.pc == 0 && m.sp == 0 && m.pointer == 0
    ensures m.memory[..|BootImage|] == BootImage
    ensures forall a :: |BootImage| <= a < 0x1000 ==> m.memory[a] == 0
    ensures forall k :: 0 <= k < 16 ==> m.registers[k] == 0 && m.stack[k] == 0
    ensures forall k :: 0 <= k < 2048 ==> !m.display[k]
  {
    Machine(seq(16, _ => 0), 0,
            seq(0x1000, a requires 0 <= a < 0x1000 => if a < |BootImage| then BootImage[a] else 0),
            seq(16, _ => 0), 0, 0, seq(2048, _ => false))
  }

  /** `memory[0x200..0x200 + len].copy_from_slice(program)`, which panics when the
      program does not fit below 0x1000. */
  function LoadProgram(memory: Memory, program: seq<byte>): (r: Result<Memory>)
    ensures r.Ok? <==> |program| <= 0x1000 - ProgramStart
    ensures r.Err? ==> r.fault == IndexOutOfBounds
    ensures r.Ok? ==> forall a :: 0 <= a < 0x1000 ==>
      r.value[a] == if ProgramStart <= a < ProgramStart + |program| then program[a - ProgramStart] else memory[a]
  {
    if |program| > 0x1000 - ProgramStart then Err(IndexOutOfBounds)
    else
      var loaded: Memory := seq(0x1000, a requires 0 <= a < 0x1000 =>
        if ProgramStart <= a < ProgramStart + |program| then program[a - ProgramStart] else memory[a]);
      Ok(loaded)
  }

  /** `CPU::new`: the default machine with the given registers and the program at 0x200. */
  function New(registers: Alu.RegisterFile, program: seq<byte>): (r: Result<Machine>)
    ensures r.Ok? <==> |program| <= 0xE00
    ensures r.Ok? ==> r.value == Default().(registers := registers, memory := r.value.memory)
    ensures r.Ok? ==> forall a :: 0 <= a < |program| ==> r.value.memory[ProgramStart + a] == program[a]
    ensures r.Ok? ==> forall a :: 0 <= a < 0x1000 && !(ProgramStart <= a < ProgramStart + |program|) ==>
      r.value.memory[a] == Default().memory[a]
  {
    match LoadProgram(Default().memory, program)
    case Ok(memory) => Ok(Default().(registers := registers, memory := memory))
    case Err(f) => Err(f)
  }

  /** `CPU::new_with_memory`: the default machine with the program at 0x200. */
  function NewWithMemory(program: seq<byte>): (r: Result<Machine>)
    ensures r.Ok? <==> |program| <= 0xE00
    ensures r.Ok? ==> r.value.pc == 0 && forall k :: 0 <= k < 16 ==> r.value.registers[k] == 0
    ensures r.Ok? ==> r.value == Default().(memory := r.value.memory)
    ensures r.Ok? ==> forall a :: 0 <= a < |program| ==> r.value.memory[ProgramStart + a] == program[a]
    ensures r.Ok? ==> forall a :: 0 <= a < 0x1000 && !(ProgramStart <= a < ProgramStart + |program|) ==>
      r.value.memory[a] == Default().memory[a]
  {
    match LoadProgram(Default().memory, program)
    case Ok(memory) => Ok(Default().(memory := memory))
    case Err(f) => Err(f)
  }

  /** `is_legal_address`: an instruction fetched at `a` must have its second byte
      in memory, so the last byte of memory is not a legal target. */
  function IsLegalAddress(a: int): (legal: bool)
    ensures forall memory: Memory :: 0 <= a ==> (legal <==> Opcode.ReadOpcode(memory, a).Ok?)
  {
    a < 0x1000 - 1
  }

  /** `call` (2nnn): push the (already advanced) `pc`, cast to `u16`, and jump to
      `nnn`; the target is not checked. */
  function Call(m: Machine, nnn: address): (r: Result<Machine>)
    ensures r.Err? <==> m.sp >= 16
    ensures r.Err? ==> r.fault == StackOverflow
    ensures r.Ok? ==> r.value.pc == nnn && r.value.sp == m.sp + 1
    ensures r.Ok? ==> r.value.stack[m.sp] == m.pc % 0x1_0000
    ensures r.Ok? ==> forall k :: 0 <= k < 16 && k != m.sp ==> r.value.stack[k] == m.stack[k]
    ensures r.Ok? ==> r.value == m.(stack := r.value.stack, sp := r.value.sp, pc := r.value.pc)
  {
    if m.sp >= 16 then Err(StackOverflow)
    else Ok(m.(stack := m.stack[m.sp := m.pc % 0x1_0000], sp := m.sp + 1, pc := nnn))
  }

  /** `ret` (00EE): pop the return address into `pc`. */
  function Ret(m: Machine): (r: Result<Machine>)
    ensures r.Err? <==> m.sp == 0
    ensures r.Err? ==> r.fault == StackUnderflow
    ensures r.Ok? ==> r.value.sp == m.sp - 1 && r.value.pc == m.stack[r.value.sp]
    ensures r.Ok? ==> r.value == m.(sp := r.value.sp, pc := r.value.pc)
  {
    if m.sp == 0 then Err(StackUnderflow)
    else Ok(m.(sp := m.sp - 1, pc := m.stack[m.sp - 1]))
  }

  /** `jump_to` (1nnn). */
  function JumpTo(m: Machine, target: word): (r: Result<Machine>)
    ensures r.Ok? <==> target < 0xFFF
    ensures r.Err? ==> r.fault == IllegalJump
    ensures r.Ok? ==> r.value == m.(pc := target)
  {
    if !IsLegalAddress(target) then Err(IllegalJump) else Ok(m.(pc := target))
  }

  /** `offset_jump_to` (Bnnn): jump to `nnn + V0` (a `u16` sum that cannot wrap). */
  function OffsetJumpTo(m: Machine, nnn: address): (r: Result<Machine>)
    ensures r.Ok? <==> nnn + m.registers[0] < 0xFFF
    ensures r.Err? ==> r.fault == IllegalJump
    ensures r.Ok? ==> r.value == m.(pc := nnn + m.registers[0])
  {
    var destination := nnn + m.registers[0];
    if !IsLegalAddress(destination) then Err(IllegalJump) else JumpTo(m, destination)
  }

  /** `skip_if_equal` (3xkk). */
  function SkipIfEqual(m: Machine, x: nibble, kk: byte): (r: Machine)
    ensures r.pc == m.pc + 2 || r.pc == m.pc
    ensures r.pc == m.pc + 2 <==> m.registers[x] == kk
    ensures r == m.(pc := r.pc)
  {
    if m.registers[x] == kk then m.(pc := m.pc + 2) else m
  }

  /** `skip_if_different` (4xkk). */
  function SkipIfDifferent(m: Machine, x: nibble, kk: byte): (r: Machine)
    ensures r.pc == m.pc + 2 || r.pc == m.pc
    ensures r.pc == m.pc + 2 <==> m.registers[x] != kk
    ensures r == m.(pc := r.pc)
  {
    if m.registers[x] != kk then m.(pc := m.pc + 2) else m
  }

  /** `skip_if_equal_registers` (5xy0). */
  function SkipIfEqualRegisters(m: Machine, x: nibble, y: nibble): (r: Machine)
    ensures r.pc == m.pc + 2 || r.pc == m.pc
    ensures r.pc == m.pc + 2 <==> m.registers[x] == m.registers[y]
    ensures r == m.(pc := r.pc)
  {
    if m.registers[x] == m.registers[y] then m.(pc := m.pc + 2) else m
  }

  /** `skip_if_different_registers` (9xy0). */
  function SkipIfDifferentRegisters(m: Machine, x: nibble, y: nibble): (r: Machine)
    ensures r.pc == m.pc + 2 || r.pc == m.pc
    ensures r.pc == m.pc + 2 <==> m.registers[x] != m.registers[y]
    ensures r == m.(pc := r.pc)
  {
    if m.registers[x] != m.registers[y] then m.(pc := m.pc + 2) else m
  }

  /** `set_pointer_register` (Annn). */
  function SetPointerRegister(m: Machine, nnn: address): (r: Machine)
    ensures r.pointer == nnn && r == m.(pointer := r.pointer)
  {
    m.(pointer := nnn)
  }

  /** `add_to_pointer_register` (Fx1E): I += Vx as `u16`, wrapping as a release
      build does. */
  function AddToPointerRegister(m: Machine, x: nibble): (r: Machine)
    ensures (r.pointer - m.pointer - m.registers[x]) % 0x1_0000 == 0
    ensures r == m.(pointer := r.pointer)
  {
    m.(pointer := WrappingAdd16(m.pointer, m.registers[x]))
  }

  /** `point_to_font_char` (Fx29): I := the address of the glyph for Vx, which
      must be a single hexadecimal digit. */
  function PointToFontChar(m: Machine, x: nibble): (r: Result<Machine>)
    ensures r.Err? <==> m.registers[x] >= 16
    ensures r.Err? ==> r.fault == UnrepresentableCharacter
    ensures r.Ok? ==> r.value == m.(pointer := 2 + 5 * m.registers[x])
    ensures r.Ok? ==> Default().memory[r.value.pointer..r.value.pointer + 5] == Font[5 * m.registers[x]..5 * m.registers[x] + 5]
  {
    var glyph := m.registers[x];
    if glyph / 16 > 0 then Err(UnrepresentableCharacter)
    else Ok(m.(pointer := 2 + 5 * glyph))
  }

  /** `store_as_bcd` (Fx33): the hundreds, tens and ones of Vx at I, I+1, I+2.
      Indexing past the end of memory panics. */
  function StoreAsBcd(m: Machine, x: nibble): (r: Result<Machine>)
    ensures r.Err? <==> m.pointer + 2 >= 0x1000
    ensures r.Err? ==> r.fault == IndexOutOfBounds
    ensures r.Ok? ==> var i := m.pointer; var mem := r.value.memory;
      && mem[i] < 10 && mem[i + 1] < 10 && mem[i + 2] < 10
      && 100 * mem[i] as int + 10 * mem[i + 1] as int + mem[i + 2] as int == m.registers[x] as int
      && (forall a :: 0 <= a < 0x1000 && !(i <= a <= i + 2) ==> mem[a] == m.memory[a])
      && r.value == m.(memory := mem)
  {
    var i := m.pointer as int;
    var value := m.registers[x];
    if i + 2 >= 0x1000 then Err(IndexOutOfBounds)
    else Ok(m.(memory := m.memory[i := value / 100][i + 1 := (value % 100) / 10][i + 2 := value % 10]))
  }

  /** `store_registers_up_to` (Fx55): V0..=Vx into memory at I..=I+x. The guard
      `len < end` lets `end == 0x1000` through, and the slice then panics. */
  function StoreRegistersUpTo(m: Machine, x: nibble): (r: Result<Machine>)
    ensures r.Err? <==> m.pointer + x >= 0x1000
    ensures r.Err? ==> r.fault == (if m.pointer + x > 0x1000 then IllegalWrite else IndexOutOfBounds)
    ensures r.Ok? ==>
      && (forall k :: 0 <= k <= x ==> r.value.memory[m.pointer + k] == m.registers[k])
      && (forall a :: 0 <= a < 0x1000 && !(m.pointer <= a <= m.pointer + x) ==> r.value.memory[a] == m.memory[a])
      && r.value == m.(memory := r.value.memory)
  {
    var start := m.pointer as int;
    var end := start + x;
    if 0x1000 < end then Err(IllegalWrite)
    else if end >= 0x1000 then Err(IndexOutOfBounds)
    else Ok(m.(memory := seq(0x1000, a requires 0 <= a < 0x1000 =>
      if start <= a <= end then m.registers[a - start] else m.memory[a])))
  }

  /** `load_registers_up_to` (Fx65): V0..=Vx from memory at I..=I+x; I is unchanged. */
  function LoadRegistersUpTo(m: Machine, x: nibble): (r: Result<Machine>)
    ensures r.Err? <==> m.pointer + x >= 0x1000
    ensures r.Err? ==> r.fault == (if m.pointer + x > 0x1000 then IllegalRead else IndexOutOfBounds)
    ensures r.Ok? ==>
      && (forall k :: 0 <= k <= x ==> r.value.registers[k] == m.memory[m.pointer + k])
      && (forall k :: x < k < 16 ==> r.value.registers[k] == m.registers[k])
      && r.value == m.(registers := r.value.registers)
  {
    var start := m.pointer as int;
    var end := start + x;
    if 0x1000 < end then Err(IllegalRead)
    else if end >= 0x1000 then Err(IndexOutOfBounds)
    else Ok(m.(registers := seq(16, k requires 0 <= k < 16 =>
      if k <= x then m.memory[start + k] else m.registers[k])))
  }

  /** `draw_at` (Dxyn): draw the n-byte sprite at I at (Vx mod 64, Vy mod 32). The
      slice `memory[I..I+n]` panics when it runs past the end of memory. */
  function DrawAt(m: Machine, x: nibble, y: nibble, n: nibble): (r: Result<Machine>)
    ensures r.Err? <==> m.pointer + n > 0x1000
    ensures r.Err? ==> r.fault == IndexOutOfBounds
    ensures r.Ok? ==>
      var x0, y0 := m.registers[x] % 64, m.registers[y] % 32;
      && Screen.SpriteDrawn(m.display, r.value.display, m.memory[m.pointer..m.pointer + n], x0, y0)
      && r.value.registers[Alu.VF] <= 1
      && r.value.registers[Alu.VF] == Screen.LastCollision(m.display, m.memory[m.pointer..m.pointer + n], x0, y0)
      && (forall k :: 0 <= k < 15 ==> r.value.registers[k] == m.registers[k])
      && r.value == m.(display := r.value.display, registers := r.value.registers)
  {
    var x0 := m.registers[x] % 64;
    var y0 := m.registers[y] % 32;
    var i := m.pointer as int;
    if i + n > 0x1000 then Err(IndexOutOfBounds)
    else
      var sprite := m.memory[i..i + n];
      Ok(m.(display := Screen.Blit(m.display, sprite, x0, y0),
            registers := m.registers[Alu.VF := Screen.LastCollision(m.display, sprite, x0, y0)]))
  }

  /** `clear_display` (00E0). */
  function ClearDisplay(m: Machine): (r: Machine)
    ensures forall k :: 0 <= k < 2048 ==> !r.display[k]
    ensures r == m.(display := r.display)
  {
    m.(display := seq(2048, _ => false))
  }

  function Lift(r: Result<Machine>): Outcome<Machine>
  {
    match r
    case Ok(m) => Running(m)
    case Err(f) => Failed(f)
  }

  function WithRegisters(m: Machine, v: Alu.RegisterFile): Machine
  {
    m.(registers := v)
  }

  /** One arm of the dispatch `match`, applied to the machine whose `pc` has
      already been advanced past the instruction. `random` is the byte Cxkk draws. */
  function Execute(m: Machine, ins: Opcode.Instruction, random: byte): (r: Outcome<Machine>)
    ensures ins.Halt? <==> r.Halted?
    ensures ins.Unknown? ==> r == Failed(Unimplemented(ins.opcode))
  {
    match ins
    case Halt => Halted(m)
    case Cls => Running(ClearDisplay(m))
    case Rts => Lift(Ret(m))
    case Jp(nnn) => Lift(JumpTo(m, nnn))
    case CallSub(nnn) => Lift(Call(m, nnn))
    case SeImm(x, kk) => Running(SkipIfEqual(m, x, kk))
    case SneImm(x, kk) => Running(SkipIfDifferent(m, x, kk))
    case SeReg(x, y) => Running(SkipIfEqualRegisters(m, x, y))
    case LdImm(x, kk) => Running(WithRegisters(m, Alu.LoadInRegister(m.registers, x, kk)))
    case AddImm(x, kk) => Running(WithRegisters(m, Alu.AddConstant(m.registers, x, kk)))
    case LdReg(x, y) => Running(WithRegisters(m, Alu.CopySecondToFirst(m.registers, x, y)))
    case OrReg(x, y) => Running(WithRegisters(m, Alu.Or(m.registers, x, y)))
    case AndReg(x, y) => Running(WithRegisters(m, Alu.And(m.registers, x, y)))
    case XorReg(x, y) => Running(WithRegisters(m, Alu.Xor(m.registers, x, y)))
    case AddReg(x, y) => Running(WithRegisters(m, Alu.AddRegisters(m.registers, x, y)))
    case SubReg(x, y) => Running(WithRegisters(m, Alu.SubRegisters(m.registers, x, y)))
    case ShrReg(x, _) => Running(WithRegisters(m, Alu.ShiftRight(m.registers, x)))
    case SubnReg(x, y) => Running(WithRegisters(m, Alu.SubRegistersSwapped(m.registers, x, y)))
    case ShlReg(x, _) => Running(WithRegisters(m, Alu.ShiftLeft(m.registers, x)))
    case SneReg(x, y) => Running(SkipIfDifferentRegisters(m, x, y))
    case LdI(nnn) => Running(SetPointerRegister(m, nnn))
    case JpV0(nnn) => Lift(OffsetJumpTo(m, nnn))
    case Rnd(x, kk) => Running(WithRegisters(m, Alu.RandomAndConstantIn(m.registers, x, kk, random)))
    case Drw(x, y, n) => Lift(DrawAt(m, x, y, n))
    case AddI(x) => Running(AddToPointerRegister(m, x))
    case LdFont(x) => Lift(PointToFontChar(m, x))
    case LdBcd(x) => Lift(StoreAsBcd(m, x))
    case StoreRegs(x) => Lift(StoreRegistersUpTo(m, x))
    case LoadRegs(x) => Lift(LoadRegistersUpTo(m, x))
    case Unknown(op) => Failed(Unimplemented(op))
  }

  /** Instructions that never set `pc` themselves: after them execution goes on
      at the next instruction. */
  predicate Sequential(ins: Opcode.Instruction)
  {
    !(ins.Halt? || ins.Rts? || ins.Jp? || ins.CallSub? || ins.JpV0? ||
      ins.SeImm? || ins.SneImm? || ins.SeReg? || ins.SneReg? || ins.Unknown?)
  }

  /** One fetch-decode-execute cycle of the update loop. A fetch past the end
      of memory panics, `0000` and only `0000` halts (after `pc` has moved on), an
      opcode outside the table is unimplemented, and an instruction that does not
      set `pc` itself leaves it at the next instruction. */
  function Step(m: Machine, random: byte): (r: Outcome<Machine>)
    ensures Opcode.ReadOpcode(m.memory, m.pc).Err? ==> r == Failed(IndexOutOfBounds)
    ensures r.Halted? <==> Opcode.ReadOpcode(m.memory, m.pc) == Ok(0x0000)
    ensures r.Halted? ==> r.machine == m.(pc := m.pc + 2)
    ensures Opcode.ReadOpcode(m.memory, m.pc).Ok? ==>
      var ins := Opcode.Decode(Opcode.ReadOpcode(m.memory, m.pc).value);
      && (ins.Unknown? ==> r == Failed(Unimplemented(ins.opcode)))
      && (Sequential(ins) && r.Running? ==> r.machine.pc == m.pc + 2)
      && (ins.CallSub? ==> r == Lift(Call(m.(pc := m.pc + 2), ins.nnn)))
      && (ins.Rts? ==> r == Lift(Ret(m.(pc := m.pc + 2))))
  {
    match Opcode.ReadOpcode(m.memory, m.pc)
    case Err(f) => Failed(f)
    case Ok(op) => Execute(m.(pc := m.pc + 2), Opcode.Decode(op), random)
  }

  /** Turns of the update loop, one per byte of `randoms` (the byte Cxkk would
      draw in that turn), stopping at the first halt or fault. `Running` means
      the bytes ran out first. */
  function Run(m: Machine, randoms: seq<byte>): (r: Outcome<Machine>)
    ensures HaltedPastZero(r)
    decreases |randoms|
  {
    if |randoms| == 0 then Running(m)
    else
      StepHaltsPastZero(m, randoms[0]);
      match Step(m, randoms[0])
      case Running(next) => Run(next, randoms[1..])
      case other => other
  }

  /** The outcome, if it is a halt, stopped just past a `0000` opcode. */
  predicate HaltedPastZero(r: Outcome<Machine>)
  {
    r.Halted? ==> r.machine.pc >= 2 && Opcode.ReadOpcode(r.machine.memory, r.machine.pc - 2) == Ok(0x0000)
  }

  /** A turn that halts leaves `pc` just past the `0000` it fetched. */
  lemma StepHaltsPastZero(m: Machine, random: byte)
    ensures HaltedPastZero(Step(m, random))
  {
    var r := Step(m, random);
    if r.Halted? {
      assert r.machine == m.(pc := m.pc + 2);
    }
  }
}
