/** The earlier headless snapshot, src/cpu.rs: registers, memory and a return
    stack but no I register and no display, and a `run` loop that knows five
    opcodes. Its `call` guard is `stack_ptr > stack.len()`, so a call at depth 16
    passes the guard and fails on the array index instead. */
module Legacy {
  import opened Bits
  import opened Faults
  import Opcode
  import Alu
  import Semantics

  /** The fields of the earlier `struct CPU`; `stack_pointer` is a public
      `usize`, so nothing bounds it. */
  datatype Machine = Machine(
    registers: Alu.RegisterFile,
    pc: nat,
    memory: Semantics.Memory,
    stack: Semantics.ReturnStack,
    sp: nat)

  /** `CPU::new`: the given registers and memory image, `pc` and `sp` at 0, an
      empty stack. */
  function New(registers: Alu.RegisterFile, memory: Semantics.Memory): (m: Machine)
    ensures m.registers == registers && m.memory == memory
    ensures m.pc == 0 && m.sp == 0 && forall k :: 0 <= k < 16 ==> m.stack[k] == 0
  {
    Machine(registers, 0, memory, seq(16, _ => 0), 0)
  }

  /** The five patterns of the `run` match: 0000, 00EE, 2nnn, 8xy4 and 7xkk;
      every other opcode is unimplemented. */
  function Decode(op: word): (ins: Opcode.Instruction)
    ensures ins.Halt? <==> op == 0x0000
    ensures ins.Unknown? ==> ins.opcode == op
    ensures ins.Halt? || ins.Rts? || ins.CallSub? || ins.AddReg? || ins.AddImm? || ins.Unknown?
    ensures ins.Unknown? <==>
      !(op == 0x0000 || op == 0x00EE || op / 0x1000 == 0x2 || op / 0x1000 == 0x7 ||
        (op / 0x1000 == 0x8 && op % 0x10 == 0x4))
    ensures ins.Rts? ==> op == 0x00EE
    ensures ins.CallSub? ==> ins.nnn == op % 0x1000
    ensures ins.AddImm? ==> ins.x == (op / 0x100) % 0x10 && ins.kk == op % 0x100
    ensures ins.AddReg? ==> ins.x == (op / 0x100) % 0x10 && ins.y == (op / 0x10) % 0x10
  {
    var (c, x, y, d) := Opcode.Decompose(op);
    if (c, x, y, d) == (0, 0, 0, 0) then Opcode.Halt
    else if (c, x, y, d) == (0, 0, 0xE, 0xE) then Opcode.Rts
    else if c == 0x2 then Opcode.CallSub(Opcode.Nnn(op))
    else if c == 0x8 && d == 0x4 then Opcode.AddReg(x, y)
    else if c == 0x7 then Opcode.AddImm(x, Opcode.Kk(op))
    else Opcode.Unknown(op)
  }

  /** `call`: push the advanced `pc` as `u16` and jump. Depth above 16 is the
      "Stack overflow" panic; depth exactly 16 gets past that guard and panics on
      `stack[16]`. */
  function Call(m: Machine, nnn: address): (r: Result<Machine>)
    ensures r.Err? <==> m.sp >= 16
    ensures r.Err? ==> r.fault == (if m.sp > 16 then StackOverflow else IndexOutOfBounds)
    ensures r.Ok? ==> r.value.pc == nnn && r.value.sp == m.sp + 1
    ensures r.Ok? ==> r.value.stack == m.stack[m.sp := m.pc % 0x1_0000]
    ensures r.Ok? ==> r.value.registers == m.registers && r.value.memory == m.memory
  {
    if m.sp > 16 then Err(StackOverflow)
    else if m.sp >= 16 then Err(IndexOutOfBounds)
    else Ok(m.(stack := m.stack[m.sp := m.pc % 0x1_0000], sp := m.sp + 1, pc := nnn))
  }

  /** `ret`: pop the return address. A pointer above 16 fails on the index. */
  function Ret(m: Machine): (r: Result<Machine>)
    ensures r.Err? <==> m.sp == 0 || m.sp > 16
    ensures r.Err? ==> r.fault == (if m.sp == 0 then StackUnderflow else IndexOutOfBounds)
    ensures r.Ok? ==> r.value.sp == m.sp - 1 && r.value.pc == m.stack[m.sp - 1]
    ensures r.Ok? ==> r.value == m.(sp := r.value.sp, pc := r.value.pc)
  {
    if m.sp == 0 then Err(StackUnderflow)
    else if m.sp - 1 >= 16 then Err(IndexOutOfBounds)
    else Ok(m.(sp := m.sp - 1, pc := m.stack[m.sp - 1]))
  }

  function Lift(r: Result<Machine>): Outcome<Machine>
  {
    match r
    case Ok(m) => Running(m)
    case Err(f) => Failed(f)
  }

  /** One turn of the `'running` loop. */
  function Step(m: Machine): (r: Outcome<Machine>)
    ensures Opcode.ReadOpcode(m.memory, m.pc).Err? ==> r == Failed(IndexOutOfBounds)
    ensures r.Halted? <==> Opcode.ReadOpcode(m.memory, m.pc) == Ok(0x0000)
    ensures r.Halted? ==> r.machine == m.(pc := m.pc + 2)
    ensures var f := Opcode.ReadOpcode(m.memory, m.pc);
      f.Ok? && Decode(f.value).Unknown? ==> r == Failed(Unimplemented(f.value))
    ensures var f := Opcode.ReadOpcode(m.memory, m.pc);
      f.Ok? && Decode(f.value).CallSub? ==> r == Lift(Call(m.(pc := m.pc + 2), Decode(f.value).nnn))
    ensures var f := Opcode.ReadOpcode(m.memory, m.pc);
      f.Ok? && Decode(f.value).Rts? ==> r == Lift(Ret(m.(pc := m.pc + 2)))
    ensures var f := Opcode.ReadOpcode(m.memory, m.pc);
      f.Ok? && (Decode(f.value).AddReg? || Decode(f.value).AddImm?) ==>
        && r.Running? && r.machine.pc == m.pc + 2
        && r.machine == m.(pc := r.machine.pc, registers := r.machine.registers)
        && r.machine.registers ==
             if Decode(f.value).AddReg? then Alu.AddRegisters(m.registers, Decode(f.value).x, Decode(f.value).y)
             else Alu.AddConstant(m.registers, Decode(f.value).x, Decode(f.value).kk)
  {
    match Opcode.ReadOpcode(m.memory, m.pc)
    case Err(f) => Failed(f)
    case Ok(op) =>
      var next := m.(pc := m.pc + 2);
      match Decode(op)
      case Halt => Halted(next)
      case Rts => Lift(Ret(next))
      case CallSub(nnn) => Lift(Call(next, nnn))
      case AddReg(x, y) => Running(next.(registers := Alu.AddRegisters(next.registers, x, y)))
      case AddImm(x, kk) => Running(next.(registers := Alu.AddConstant(next.registers, x, kk)))
      case _ => Failed(Unimplemented(op))
  }

  /** At most `fuel` turns of the loop: `Running` means the fuel ran out first. */
  function Run(m: Machine, fuel: nat): (r: Outcome<Machine>)
    ensures r.Halted? ==> r.machine.pc >= 2 && Opcode.ReadOpcode(r.machine.memory, r.machine.pc - 2) == Ok(0x0000)
    decreases fuel
  {
    if fuel == 0 then Running(m)
    else match Step(m)
      case Running(next) => Run(next, fuel - 1)
      case other => other
  }
}

/** The earlier `struct CPU` of src/cpu.rs updated in place, its methods proved
    against the functions of `Legacy`. */
module LegacyEngine {
  import opened Bits
  import opened Faults
  import Opcode
  import Alu
  import Semantics
  import Engine
  import Legacy

  /** The earlier `struct CPU`, updated in place. */
  class Cpu {
    const registers: array<byte>
    var pc: nat
    const memory: array<byte>
    const stack: array<word>
    var sp: nat

    ghost predicate Valid()
      reads this
    {
      registers.Length == 16 && memory.Length == 0x1000 && stack.Length == 16 && registers != memory
    }

    ghost function State(): Legacy.Machine
      requires Valid()
      reads this, registers, memory, stack
    {
      Legacy.Machine(registers[..], pc, memory[..], stack[..], sp)
    }

    /** `CPU::new`. */
    constructor New(initRegisters: Alu.RegisterFile, initMemory: Semantics.Memory)
      ensures Valid() && fresh(registers) && fresh(memory) && fresh(stack)
      ensures State() == Legacy.New(initRegisters, initMemory)
    {
      registers := new byte[16](k requires 0 <= k < 16 => initRegisters[k]);
      memory := new byte[0x1000](a requires 0 <= a < 0x1000 => initMemory[a]);
      stack := new word[16](_ => 0);
      pc, sp := 0, 0;
      new;
      assert registers[..] == initRegisters;
      assert memory[..] == initMemory;
    }

    /** `read_opcode`. */
    method ReadOpcode() returns (r: Result<word>)
      requires Valid()
      ensures r == Opcode.ReadOpcode(State().memory, pc)
    {
      if pc + 1 >= memory.Length {
        return Err(IndexOutOfBounds);
      }
      return Ok(memory[pc] as int * 0x100 + memory[pc + 1]);
    }

    /** `add_registers` (8xy4). */
    method AddRegisters(x: nibble, y: nibble)
      requires Valid()
      modifies registers
      ensures registers[..] == Alu.AddRegisters(old(registers[..]), x, y)
    {
      var (value, overflow) := OverflowingAdd(registers[x], registers[y]);
      registers[x] := value;
      registers[Alu.VF] := if overflow then 1 else 0;
    }

    /** `add_constant` (7xkk), wrapping. */
    method AddConstant(x: nibble, kk: byte)
      requires Valid()
      modifies registers
      ensures registers[..] == Alu.AddConstant(old(registers[..]), x, kk)
    {
      registers[x] := WrappingAdd8(registers[x], kk);
    }

    /** `call` (2nnn). */
    method Call(nnn: address) returns (fault: Option<Fault>)
      requires Valid()
      modifies this, stack
      ensures Valid()
      ensures Engine.Realises(Legacy.Call(old(State()), nnn), fault, old(State()), State())
    {
      if sp > stack.Length {
        return Some(StackOverflow);
      }
      if sp >= stack.Length {
        return Some(IndexOutOfBounds);
      }
      stack[sp] := pc % 0x1_0000;
      sp := sp + 1;
      pc := nnn;
      return None;
    }

    /** `ret` (00EE). */
    method Ret() returns (fault: Option<Fault>)
      requires Valid()
      modifies this
      ensures Valid()
      ensures Engine.Realises(Legacy.Ret(old(State())), fault, old(State()), State())
    {
      if sp == 0 {
        return Some(StackUnderflow);
      }
      if sp - 1 >= stack.Length {
        return Some(IndexOutOfBounds);
      }
      sp := sp - 1;
      pc := stack[sp];
      return None;
    }

    /** The body of the `'running` loop. */
    method Step() returns (status: Engine.Status)
      requires Valid()
      modifies this, registers, stack
      ensures Valid()
      ensures Legacy.Step(old(State())) == Engine.Observe(status, State())
    {
      var fetched := ReadOpcode();
      if fetched.Err? {
        return Engine.Fault(fetched.fault);
      }
      var op := fetched.value;
      pc := pc + 2;
      ghost var next := State();
      match Legacy.Decode(op) {
        case Halt => status := Engine.Halt;
        case Rts => var f := Ret(); status := Engine.Report(f);
        case CallSub(nnn) => var f := Call(nnn); status := Engine.Report(f);
        case AddReg(x, y) =>
          AddRegisters(x, y);
          assert State() == next.(registers := registers[..]);
          status := Engine.Continue;
        case AddImm(x, kk) =>
          AddConstant(x, kk);
          assert State() == next.(registers := registers[..]);
          status := Engine.Continue;
        case _ => status := Engine.Fault(Unimplemented(op));
      }
    }

    /** `run`: turn the loop until it halts or fails, here for at most `fuel` turns. */
    method Run(fuel: nat) returns (status: Engine.Status)
      requires Valid()
      modifies this, registers, stack
      ensures Valid()
      ensures Legacy.Run(old(State()), fuel) == Engine.Observe(status, State())
    {
      var remaining := fuel;
      while remaining > 0
        invariant Valid()
        invariant Legacy.Run(old(State()), fuel) == Legacy.Run(State(), remaining)
      {
        status := Step();
        if status != Engine.Continue {
          return;
        }
        remaining := remaining - 1;
      }
      status := Engine.Continue;
    }
  }
}
