/** `struct CPU` of src/cpu/cpu.rs as a class over arrays that its methods update
    in place, one method per `CPU` method. Each method is proved to leave the
    machine in the state the matching function of `Semantics` computes, and
    `Step`, the body of the update loop, to agree with `Semantics.Step`. A method
    that would panic reports the fault instead and leaves the state as it was. */
module Engine {
  import opened Bits
  import opened Faults
  import Opcode
  import Alu
  import Screen
  import Semantics

  /** What one turn of the update loop ends in. */
  datatype Status = Continue | Halt | Fault(fault: Fault)

  /** The outcome a status and the machine state after it stand for. */
  function Observe<M>(status: Status, m: M): Outcome<M>
  {
    match status
    case Continue => Running(m)
    case Halt => Halted(m)
    case Fault(f) => Failed(f)
  }

  /** The status of an instruction that returned `fault`. */
  function Report(fault: Option<Fault>): (status: Status)
    ensures status.Fault? <==> fault.Some?
    ensures status != Halt
  {
    match fault
    case None => Continue
    case Some(f) => Fault(f)
  }

  /** A method that returned `fault` and moved the state from `before` to `after`
      did what `r` says: on success it reached the state `r` holds; on failure it
      reports the same fault and changed nothing. */
  ghost predicate Realises<T>(r: Result<T>, fault: Option<Fault>, before: T, after: T)
  {
    match r
    case Ok(s) => fault.None? && after == s
    case Err(f) => fault == Some(f) && after == before
  }

  class Cpu {
    const registers: array<byte>
    var pc: nat
    const memory: array<byte>
    const stack: array<word>
    var sp: nat
    var pointer: word
    const display: array<bool>

    /** The array sizes of `struct CPU` and the bound `call` keeps on the stack
        pointer. */
    ghost predicate Valid()
      reads this
    {
      registers.Length == 16 && memory.Length == 0x1000 && stack.Length == 16 &&
      display.Length == 2048 && sp <= 16 && registers != memory
    }

    /** The state as a value. */
    ghost function State(): Semantics.Machine
      requires Valid()
      reads this, registers, memory, stack, display
    {
      Semantics.Machine(registers[..], pc, memory[..], stack[..], sp, pointer, display[..])
    }

    /** `CPU::default`: zeroed state with the boot image at address 0. */
    constructor Default()
      ensures Valid() && fresh(registers) && fresh(memory) && fresh(stack) && fresh(display)
      ensures State() == Semantics.Default()
    {
      registers := new byte[16](_ => 0);
      memory := new byte[0x1000](_ => 0);
      stack := new word[16](_ => 0);
      display := new bool[2048](_ => false);
      pc, sp, pointer := 0, 0, 0;
      new;
      forall a | 0 <= a < |Semantics.BootImage| {
        memory[a] := Semantics.BootImage[a];
      }
    }

    /** `CPU::new`: the default machine with the given registers and the program
        copied to 0x200. */
    static method New(registers: Alu.RegisterFile, program: seq<byte>) returns (r: Result<Cpu>)
      ensures r.Ok? ==> fresh(r.value.registers) && fresh(r.value.memory) && fresh(r.value.stack) && fresh(r.value.display)
      ensures r.Ok? ==> r.value.Valid() && Semantics.New(registers, program) == Ok(r.value.State())
      ensures r.Err? ==> Semantics.New(registers, program) == Err(r.fault)
    {
      var cpu := new Cpu.Default();
      forall k | 0 <= k < 16 {
        cpu.registers[k] := registers[k];
      }
      assert cpu.registers[..] == registers;
      ghost var loaded := cpu.State();
      assert loaded == Semantics.Default().(registers := registers);
      var fault := cpu.LoadProgram(program);
      assert cpu.State() == loaded.(memory := cpu.memory[..]);
      if fault.Some? {
        return Err(fault.value);
      }
      return Ok(cpu);
    }

    /** `CPU::new_with_memory`: the default machine with the program copied to 0x200. */
    static method NewWithMemory(program: seq<byte>) returns (r: Result<Cpu>)
      ensures r.Ok? ==> fresh(r.value.registers) && fresh(r.value.memory) && fresh(r.value.stack) && fresh(r.value.display)
      ensures r.Ok? ==> r.value.Valid() && Semantics.NewWithMemory(program) == Ok(r.value.State())
      ensures r.Err? ==> Semantics.NewWithMemory(program) == Err(r.fault)
    {
      var cpu := new Cpu.Default();
      var fault := cpu.LoadProgram(program);
      if fault.Some? {
        return Err(fault.value);
      }
      return Ok(cpu);
    }

    /** `memory[0x200..0x200 + len].copy_from_slice(program)`. */
    method LoadProgram(program: seq<byte>) returns (fault: Option<Fault>)
      requires Valid()
      modifies memory
      ensures Realises(Semantics.LoadProgram(old(memory[..]), program), fault, old(memory[..]), memory[..])
    {
      if |program| > memory.Length - Semantics.ProgramStart {
        return Some(IndexOutOfBounds);
      }
      forall a | Semantics.ProgramStart <= a < Semantics.ProgramStart + |program| {
        memory[a] := program[a - Semantics.ProgramStart];
      }
      assert memory[..] == Semantics.LoadProgram(old(memory[..]), program).value;
      return None;
    }

    /** `peek_register`: the value of register `index`, which must exist. */
    method PeekRegister(index: nat) returns (r: Result<byte>)
      requires Valid()
      ensures r.Ok? <==> index < 16
      ensures r.Err? ==> r.fault == IndexOutOfBounds
      ensures r.Ok? ==> r.value == State().registers[index]
    {
      if index >= registers.Length {
        return Err(IndexOutOfBounds);
      }
      return Ok(registers[index]);
    }

    /** `read_opcode`: the big-endian word at `pc`. */
    method ReadOpcode() returns (r: Result<word>)
      requires Valid()
      ensures r == Opcode.ReadOpcode(State().memory, pc)
    {
      if pc + 1 >= memory.Length {
        return Err(IndexOutOfBounds);
      }
      return Ok(memory[pc] as int * 0x100 + memory[pc + 1]);
    }

    /** `add_registers` (8xy4). */
    method AddRegisters(x: nibble, y: nibble)
      requires Valid()
      modifies registers
      ensures registers[..] == Alu.AddRegisters(old(registers[..]), x, y)
    {
      var (value, overflow) := OverflowingAdd(registers[x], registers[y]);
      registers[x] := value;
      registers[Alu.VF] := if overflow then 1 else 0;
    }

    /** `add_constant` (7xkk), wrapping. */
    method AddConstant(x: nibble, kk: byte)
      requires Valid()
      modifies registers
      ensures registers[..] == Alu.AddConstant(old(registers[..]), x, kk)
    {
      registers[x] := WrappingAdd8(registers[x], kk);
    }

    /** `call` (2nnn). */
    method Call(nnn: address) returns (fault: Option<Fault>)
      requires Valid()
      modifies this, stack
      ensures Valid()
      ensures Realises(Semantics.Call(old(State()), nnn), fault, old(State()), State())
    {
      if sp >= stack.Length {
        return Some(StackOverflow);
      }
      stack[sp] := pc % 0x1_0000;
      sp := sp + 1;
      pc := nnn;
      return None;
    }

    /** `ret` (00EE). */
    method Ret() returns (fault: Option<Fault>)
      requires Valid()
      modifies this
      ensures Valid()
      ensures Realises(Semantics.Ret(old(State())), fault, old(State()), State())
    {
      if sp == 0 {
        return Some(StackUnderflow);
      }
      sp := sp - 1;
      pc := stack[sp];
      return None;
    }

    /** `jump_to` (1nnn). */
    method JumpTo(target: word) returns (fault: Option<Fault>)
      requires Valid()
      modifies this
      ensures Valid()
      ensures Realises(Semantics.JumpTo(old(State()), target), fault, old(State()), State())
    {
      if !Semantics.IsLegalAddress(target) {
        return Some(IllegalJump);
      }
      pc := target;
      return None;
    }

    /** `set_pointer_register` (Annn). */
    method SetPointerRegister(nnn: address)
      requires Valid()
      modifies this
      ensures Valid()
      ensures State() == Semantics.SetPointerRegister(old(State()), nnn)
    {
      pointer := nnn;
    }

    /** `offset_jump_to` (Bnnn). */
    method OffsetJumpTo(nnn: address) returns (fault: Option<Fault>)
      requires Valid()
      modifies this
      ensures Valid()
      ensures Realises(Semantics.OffsetJumpTo(old(State()), nnn), fault, old(State()), State())
    {
      var destination := nnn + registers[0];
      if !Semantics.IsLegalAddress(destination) {
        return Some(IllegalJump);
      }
      fault := JumpTo(destination);
    }

    /** `load_in_register` (6xkk). */
    method LoadInRegister(x: nibble, kk: byte)
      requires Valid()
      modifies registers
      ensures registers[..] == Alu.LoadInRegister(old(registers[..]), x, kk)
    {
      registers[x] := kk;
    }

    /** `skip_if_equal` (3xkk). */
    method SkipIfEqual(x: nibble, kk: byte)
      requires Valid()
      modifies this
      ensures Valid()
      ensures State() == Semantics.SkipIfEqual(old(State()), x, kk)
    {
      if registers[x] == kk {
        pc := pc + 2;
      }
    }

    /** `skip_if_different` (4xkk). */
    method SkipIfDifferent(x: nibble, kk: byte)
      requires Valid()
      modifies this
      ensures Valid()
      ensures State() == Semantics.SkipIfDifferent(old(State()), x, kk)
    {
      if registers[x] != kk {
        pc := pc + 2;
      }
    }

    /** `skip_if_equal_registers` (5xy0). */
    method SkipIfEqualRegisters(x: nibble, y: nibble)
      requires Valid()
      modifies this
      ensures Valid()
      ensures State() == Semantics.SkipIfEqualRegisters(old(State()), x, y)
    {
      if registers[x] == registers[y] {
        pc := pc + 2;
      }
    }

    /** `skip_if_different_registers` (9xy0). */
    method SkipIfDifferentRegisters(x: nibble, y: nibble)
      requires Valid()
      modifies this
      ensures Valid()
      ensures State() == Semantics.SkipIfDifferentRegisters(old(State()), x, y)
    {
      if registers[x] != registers[y] {
        pc := pc + 2;
      }
    }

    /** `copy_second_to_first` (8xy0). */
    method CopySecondToFirst(x: nibble, y: nibble)
      requires Valid()
      modifies registers
      ensures registers[..] == Alu.CopySecondToFirst(old(registers[..]), x, y)
    {
      registers[x] := registers[y];
    }

    /** `or` (8xy1). */
    method Or(x: nibble, y: nibble)
      requires Valid()
      modifies registers
      ensures registers[..] == Alu.Or(old(registers[..]), x, y)
    {
      registers[x] := BitOr(registers[x], registers[y]);
    }

    /** `and` (8xy2). */
    method And(x: nibble, y: nibble)
      requires Valid()
      modifies registers
      ensures registers[..] == Alu.And(old(registers[..]), x, y)
    {
      registers[x] := BitAnd(registers[x], registers[y]);
    }

    /** `xor` (8xy3). */
    method Xor(x: nibble, y: nibble)
      requires Valid()
      modifies registers
      ensures registers[..] == Alu.Xor(old(registers[..]), x, y)
    {
      registers[x] := BitXor(registers[x], registers[y]);
    }

    /** `sub_registers` (8xy5). */
    method SubRegisters(x: nibble, y: nibble)
      requires Valid()
      modifies registers
      ensures registers[..] == Alu.SubRegisters(old(registers[..]), x, y)
    {
      var (value, borrow) := OverflowingSub(registers[x], registers[y]);
      registers[x] := value;
      registers[Alu.VF] := if borrow then 1 else 0;
    }

    /** `shift_right` (8xy6): the flag is written first, then Vx is read again. */
    method ShiftRight(x: nibble)
      requires Valid()
      modifies registers
      ensures registers[..] == Alu.ShiftRight(old(registers[..]), x)
    {
      var value := registers[x];
      registers[Alu.VF] := value % 2;
      registers[x] := registers[x] / 2;
    }

    /** `shift_left` (8xyE): the flag is written first, then Vx is read again. */
    method ShiftLeft(x: nibble)
      requires Valid()
      modifies registers
      ensures registers[..] == Alu.ShiftLeft(old(registers[..]), x)
    {
      var value := registers[x];
      registers[Alu.VF] := value / 0x80;
      registers[x] := (2 * registers[x] as int) % 0x100;
    }

    /** `sub_registers_swapped` (8xy7). */
    method SubRegistersSwapped(x: nibble, y: nibble)
      requires Valid()
      modifies registers
      ensures registers[..] == Alu.SubRegistersSwapped(old(registers[..]), x, y)
    {
      var (value, borrow) := OverflowingSub(registers[y], registers[x]);
      registers[x] := value;
      registers[Alu.VF] := if borrow then 1 else 0;
    }

    /** `random_and_constant_in` (Cxkk), with the random byte passed in. */
    method RandomAndConstantIn(x: nibble, kk: byte, random: byte)
      requires Valid()
      modifies registers
      ensures registers[..] == Alu.RandomAndConstantIn(old(registers[..]), x, kk, random)
    {
      registers[x] := BitAnd(random, kk);
    }

    /** `store_registers_up_to` (Fx55). */
    method StoreRegistersUpTo(x: nibble) returns (fault: Option<Fault>)
      requires Valid()
      modifies memory
      ensures Valid()
      ensures Realises(Semantics.StoreRegistersUpTo(old(State()), x), fault, old(State()), State())
    {
      var start := pointer as int;
      var end := start + x;
      if memory.Length < end {
        return Some(IllegalWrite);
      }
      if end >= memory.Length {
        return Some(IndexOutOfBounds);
      }
      ghost var before := State();
      forall a | start <= a <= end {
        memory[a] := registers[a - start];
      }
      assert memory[..] == Semantics.StoreRegistersUpTo(before, x).value.memory;
      return None;
    }

    /** `load_registers_up_to` (Fx65). */
    method LoadRegistersUpTo(x: nibble) returns (fault: Option<Fault>)
      requires Valid()
      modifies registers
      ensures Valid()
      ensures Realises(Semantics.LoadRegistersUpTo(old(State()), x), fault, old(State()), State())
    {
      var start := pointer as int;
      var end := start + x;
      if memory.Length < end {
        return Some(IllegalRead);
      }
      if end >= memory.Length {
        return Some(IndexOutOfBounds);
      }
      ghost var before := State();
      forall k | 0 <= k <= x {
        registers[k] := memory[start + k];
      }
      assert registers[..] == Semantics.LoadRegistersUpTo(before, x).value.registers;
      return None;
    }

    /** `add_to_pointer_register` (Fx1E), wrapping. */
    method AddToPointerRegister(x: nibble)
      requires Valid()
      modifies this
      ensures Valid()
      ensures State() == Semantics.AddToPointerRegister(old(State()), x)
    {
      pointer := WrappingAdd16(pointer, registers[x]);
    }

    /** `store_as_bcd` (Fx33). */
    method StoreAsBcd(x: nibble) returns (fault: Option<Fault>)
      requires Valid()
      modifies memory
      ensures Valid()
      ensures Realises(Semantics.StoreAsBcd(old(State()), x), fault, old(State()), State())
    {
      var i := pointer as int;
      var value := registers[x];
      if i + 2 >= memory.Length {
        return Some(IndexOutOfBounds);
      }
      memory[i] := value / 100;
      memory[i + 1] := (value % 100) / 10;
      memory[i + 2] := value % 10;
      return None;
    }

    /** `point_to_font_char` (Fx29). */
    method PointToFontChar(x: nibble) returns (fault: Option<Fault>)
      requires Valid()
      modifies this
      ensures Valid()
      ensures Realises(Semantics.PointToFontChar(old(State()), x), fault, old(State()), State())
    {
      var glyph := registers[x];
      if glyph / 16 > 0 {
        return Some(UnrepresentableCharacter);
      }
      pointer := 2 + 5 * glyph;
      return None;
    }

    /** `draw_at` (Dxyn): row by row, column by column, each visible pixel of the
        sprite flips its cell and overwrites VF with its collision bit. */
    method DrawAt(x: nibble, y: nibble, n: nibble) returns (fault: Option<Fault>)
      requires Valid()
      modifies registers, display
      ensures Valid()
      ensures Realises(Semantics.DrawAt(old(State()), x, y, n), fault, old(State()), State())
    {
      var x0: nat := registers[x] % 64;
      var y0: nat := registers[y] % 32;
      var start := pointer as int;
      if start + n > memory.Length {
        return Some(IndexOutOfBounds);
      }
      DrawSprite(memory[start..start + n], x0, y0);
      return None;
    }

    /** The `'rows` loop of `draw_at`: VF is reset, then every visible row of
        `sprite` is drawn at (x0, y0); rows past the bottom edge are skipped. */
    method DrawSprite(sprite: seq<byte>, x0: nat, y0: nat)
      requires Valid() && x0 < 64 && y0 < 32
      modifies registers, display
      ensures display[..] == Screen.Blit(old(display[..]), sprite, x0, y0)
      ensures registers[..] == old(registers[..])[Alu.VF := Screen.LastCollision(old(display[..]), sprite, x0, y0)]
    {
      ghost var v0 := registers[..];
      ghost var d0: Screen.Frame := display[..];
      registers[Alu.VF] := 0;
      var i := 0;
      while i < |sprite|
        invariant 0 <= i <= |sprite| && y0 + i <= 32
        invariant display[..] == Screen.Drawn(d0, sprite, x0, y0, i, 0)
        invariant i == 0 ==> registers[..] == v0[Alu.VF := 0]
        invariant i > 0 ==> registers[..] == v0[Alu.VF := Screen.PixelCollision(d0, sprite, x0, y0, i - 1, Screen.Min(8, 64 - x0) - 1)]
      {
        if y0 + i >= 32 {
          break;
        }
        DrawRow(d0, sprite, x0, y0, i);
        i := i + 1;
      }
      if i < |sprite| {
        Screen.BottomClipped(d0, sprite, x0, y0, i);
      }
    }

    /** The `'cols` loop of `draw_at` for sprite row `i`: each visible pixel flips
        its cell and overwrites VF with its collision bit. */
    method DrawRow(ghost d0: Screen.Frame, sprite: seq<byte>, x0: nat, y0: nat, i: nat)
      requires Valid() && x0 < 64 && i < |sprite| && y0 + i < 32
      requires display[..] == Screen.Drawn(d0, sprite, x0, y0, i, 0)
      modifies registers, display
      ensures display[..] == Screen.Drawn(d0, sprite, x0, y0, i + 1, 0)
      ensures registers[..] == old(registers[..])[Alu.VF := Screen.PixelCollision(d0, sprite, x0, y0, i, Screen.Min(8, 64 - x0) - 1)]
    {
      var row := sprite[i];
      var j := 0;
      while j < 8
        invariant 0 <= j <= 8 && x0 + j <= 64
        invariant display[..] == Screen.Drawn(d0, sprite, x0, y0, i, j)
        invariant j > 0 ==> registers[..] == old(registers[..])[Alu.VF := Screen.PixelCollision(d0, sprite, x0, y0, i, j - 1)]
        invariant j == 0 ==> registers[..] == old(registers[..])
      {
        if x0 + j >= 64 {
          break;
        }
        var lit := Bit(row, j);
        var k := Screen.DisplayIndex(y0 + i, x0 + j);
        var current := display[k];
        Screen.PixelStep(d0, sprite, x0, y0, i, j);
        display[k] := current != lit;
        registers[Alu.VF] := if current && lit then 1 else 0;
        j := j + 1;
      }
      Screen.RowDone(d0, sprite, x0, y0, i, j);
    }

    /** `clear_display` (00E0). */
    method ClearDisplay()
      requires Valid()
      modifies display
      ensures Valid()
      ensures State() == Semantics.ClearDisplay(old(State()))
    {
      forall k | 0 <= k < display.Length {
        display[k] := false;
      }
    }

    /** One arm of the dispatch `match` of the update loop, on a machine whose
        `pc` already points past the instruction. */
    method Execute(ins: Opcode.Instruction, random: byte) returns (status: Status)
      requires Valid()
      modifies this, registers, memory, stack, display
      ensures Valid()
      ensures Semantics.Execute(old(State()), ins, random) == Observe(status, State())
    {
      if ins.Halt? || ins.Cls? || ins.Rts? || ins.Jp? || ins.CallSub? || ins.JpV0? || ins.Unknown? {
        status := ExecuteControl(ins);
      } else if ins.SeImm? || ins.SneImm? || ins.SeReg? || ins.SneReg? || ins.LdI? || ins.AddI? || ins.LdFont? {
        status := ExecuteSkipOrPointer(ins);
      } else if ins.Drw? || ins.LdBcd? || ins.StoreRegs? || ins.LoadRegs? {
        status := ExecuteMemory(ins);
      } else {
        ExecuteRegisters(ins, random);
        status := Continue;
      }
    }

    /** The instructions that only change the registers. */
    method ExecuteRegisters(ins: Opcode.Instruction, random: byte)
      requires Valid()
      requires !(ins.Halt? || ins.Cls? || ins.Rts? || ins.Jp? || ins.CallSub? || ins.JpV0? || ins.Unknown?)
      requires !(ins.SeImm? || ins.SneImm? || ins.SeReg? || ins.SneReg? || ins.LdI? || ins.AddI? || ins.LdFont?)
      requires !(ins.Drw? || ins.LdBcd? || ins.StoreRegs? || ins.LoadRegs?)
      modifies registers
      ensures Semantics.Execute(old(State()), ins, random) == Running(State())
    {
      if ins.LdImm? || ins.AddImm? || ins.LdReg? || ins.Rnd? {
        ExecuteLoad(ins, random);
      } else if ins.OrReg? || ins.AndReg? || ins.XorReg? {
        ExecuteLogic(ins);
      } else {
        ExecuteArithmetic(ins);
      }
    }

    /** Halt, clear, return, the jumps and the call. */
    method ExecuteControl(ins: Opcode.Instruction) returns (status: Status)
      requires Valid()
      requires ins.Halt? || ins.Cls? || ins.Rts? || ins.Jp? || ins.CallSub? || ins.JpV0? || ins.Unknown?
      modifies this, display, stack
      ensures Valid()
      ensures Semantics.Execute(old(State()), ins, 0) == Observe(status, State())
    {
      match ins
      case Halt => status := Halt;
      case Cls => ClearDisplay(); status := Continue;
      case Rts => var f := Ret(); status := Report(f);
      case Jp(nnn) => var f := JumpTo(nnn); status := Report(f);
      case CallSub(nnn) => var f := Call(nnn); status := Report(f);
      case JpV0(nnn) => var f := OffsetJumpTo(nnn); status := Report(f);
      case Unknown(op) => status := Fault(Unimplemented(op));
    }

    /** The conditional skips and the instructions that set I. */
    method ExecuteSkipOrPointer(ins: Opcode.Instruction) returns (status: Status)
      requires Valid()
      requires ins.SeImm? || ins.SneImm? || ins.SeReg? || ins.SneReg? || ins.LdI? || ins.AddI? || ins.LdFont?
      modifies this
      ensures Valid()
      ensures Semantics.Execute(old(State()), ins, 0) == Observe(status, State())
    {
      match ins
      case SeImm(x, kk) => SkipIfEqual(x, kk); status := Continue;
      case SneImm(x, kk) => SkipIfDifferent(x, kk); status := Continue;
      case SeReg(x, y) => SkipIfEqualRegisters(x, y); status := Continue;
      case SneReg(x, y) => SkipIfDifferentRegisters(x, y); status := Continue;
      case LdI(nnn) => SetPointerRegister(nnn); status := Continue;
      case AddI(x) => AddToPointerRegister(x); status := Continue;
      case LdFont(x) => var f := PointToFontChar(x); status := Report(f);
    }

    /** The instructions that move bytes between memory, registers and the display. */
    method ExecuteMemory(ins: Opcode.Instruction) returns (status: Status)
      requires Valid()
      requires ins.Drw? || ins.LdBcd? || ins.StoreRegs? || ins.LoadRegs?
      modifies registers, memory, display
      ensures Valid()
      ensures Semantics.Execute(old(State()), ins, 0) == Observe(status, State())
    {
      match ins
      case Drw(x, y, n) => var f := DrawAt(x, y, n); status := Report(f);
      case LdBcd(x) => var f := StoreAsBcd(x); status := Report(f);
      case StoreRegs(x) => var f := StoreRegistersUpTo(x); status := Report(f);
      case LoadRegs(x) => var f := LoadRegistersUpTo(x); status := Report(f);
    }

    /** The loads, 7xkk and Cxkk, which only change Vx. */
    method ExecuteLoad(ins: Opcode.Instruction, random: byte)
      requires Valid()
      requires ins.LdImm? || ins.AddImm? || ins.LdReg? || ins.Rnd?
      modifies registers
      ensures Semantics.Execute(old(State()), ins, random) == Running(State())
    {
      ghost var before := State();
      match ins {
        case LdImm(x, kk) => LoadInRegister(x, kk);
        case AddImm(x, kk) => AddConstant(x, kk);
        case LdReg(x, y) => CopySecondToFirst(x, y);
        case Rnd(x, kk) => RandomAndConstantIn(x, kk, random);
      }
      assert State() == Semantics.WithRegisters(before, registers[..]);
    }

    /** The bitwise instructions, which only change Vx. */
    method ExecuteLogic(ins: Opcode.Instruction)
      requires Valid()
      requires ins.OrReg? || ins.AndReg? || ins.XorReg?
      modifies registers
      ensures Semantics.Execute(old(State()), ins, 0) == Running(State())
    {
      ghost var before := State();
      match ins {
        case OrReg(x, y) => Or(x, y);
        case AndReg(x, y) => And(x, y);
        case XorReg(x, y) => Xor(x, y);
      }
      assert State() == Semantics.WithRegisters(before, registers[..]);
    }

    /** The arithmetic instructions, which change Vx and the flag VF. */
    method ExecuteArithmetic(ins: Opcode.Instruction)
      requires Valid()
      requires ins.AddReg? || ins.SubReg? || ins.ShrReg? || ins.SubnReg? || ins.ShlReg?
      modifies registers
      ensures Semantics.Execute(old(State()), ins, 0) == Running(State())
    {
      match ins
      case AddReg(x, y) => AddRegisters(x, y);
      case SubReg(x, y) => SubRegisters(x, y);
      case ShrReg(x, _) => ShiftRight(x);
      case SubnReg(x, y) => SubRegistersSwapped(x, y);
      case ShlReg(x, _) => ShiftLeft(x);
    }

    /** One turn of the update loop: fetch the opcode at `pc`, advance `pc` by 2,
        decode and execute. `random` is the byte Cxkk would draw. */
    method Step(random: byte) returns (status: Status)
      requires Valid()
      modifies this, registers, memory, stack, display
      ensures Valid()
      ensures Semantics.Step(old(State()), random) == Observe(status, State())
    {
      var fetched := ReadOpcode();
      if fetched.Err? {
        return Fault(fetched.fault);
      }
      pc := pc + 2;
      status := Execute(Opcode.Decode(fetched.value), random);
    }

    /** The update loop: one turn per byte of `randoms`, until a halt or a fault. */
    method Run(randoms: seq<byte>) returns (status: Status)
      requires Valid()
      modifies this, registers, memory, stack, display
      ensures Valid()
      ensures Semantics.Run(old(State()), randoms) == Observe(status, State())
    {
      var t := 0;
      while t < |randoms|
        invariant Valid() && 0 <= t <= |randoms|
        invariant Semantics.Run(old(State()), randoms) == Semantics.Run(State(), randoms[t..])
      {
        assert randoms[t..][1..] == randoms[t + 1..];
        status := Step(randoms[t]);
        if status != Continue {
          return;
        }
        t := t + 1;
      }
      status := Continue;
    }
  }
}
