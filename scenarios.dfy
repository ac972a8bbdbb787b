/** The programs of the repository's tests, run through the model turn by turn. */
module Scenarios {
  import opened Bits
  import opened Faults
  import Opcode
  import Alu
  import Semantics
  import Legacy
  import Properties

  /** Two calls of the subroutine at 0x100 and a halt; the subroutine adds V1 to
      V0 twice and returns. */
  const NestedCallMemory: Semantics.Memory := seq(0x1000, a requires 0 <= a < 0x1000 =>
    if a < 6 then [0x21, 0x00, 0x21, 0x00, 0x00, 0x00][a]
    else if 0x100 <= a < 0x106 then [0x80, 0x14, 0x80, 0x14, 0x00, 0xEE][a - 0x100]
    else 0)

  /** The states the nested-call program passes through: V0 = `v0`, V1 = 10,
      the rest 0, and `ret` in the first stack slot. */
  function NestedState(pc: nat, sp: nat, ret: word, v0: byte): Legacy.Machine
  {
    Legacy.Machine(seq(16, k requires 0 <= k < 16 => if k == 0 then v0 else if k == 1 then 10 else 0),
                   pc, NestedCallMemory, seq(16, k requires 0 <= k < 16 => if k == 0 then ret else 0), sp)
  }

  /** One turn of the earlier snapshot that goes on running. */
  lemma LegacyTurn(m: Legacy.Machine, next: Legacy.Machine, fuel: nat)
    requires fuel > 0 && Legacy.Step(m) == Running(next)
    ensures Legacy.Run(m, fuel) == Legacy.Run(next, fuel - 1)
  {
  }

  /** `2100` at 0 or 2 enters the subroutine. */
  lemma NestedCall(pc: nat, ret: word, v0: byte)
    requires pc == 0 || pc == 2
    ensures Legacy.Step(NestedState(pc, 0, ret, v0)) == Running(NestedState(0x100, 1, pc + 2, v0))
  {
    var m := NestedState(pc, 0, ret, v0);
    assert m.memory[pc] == 0x21 && m.memory[pc + 1] == 0x00;
    assert Opcode.ReadOpcode(m.memory, pc) == Ok(0x2100);
    assert Legacy.Decode(0x2100) == Opcode.CallSub(0x100);
    assert m.stack[0 := pc + 2] == NestedState(0x100, 1, pc + 2, v0).stack;
  }

  /** `8014` at 0x100 or 0x102 adds V1 = 10 to V0. */
  lemma NestedAdd(pc: nat, ret: word, v0: byte)
    requires pc == 0x100 || pc == 0x102
    requires v0 + 10 < 0x100
    ensures Legacy.Step(NestedState(pc, 1, ret, v0)) == Running(NestedState(pc + 2, 1, ret, v0 + 10))
  {
    var m := NestedState(pc, 1, ret, v0);
    assert m.memory[pc] == 0x80 && m.memory[pc + 1] == 0x14;
    assert Opcode.ReadOpcode(m.memory, pc) == Ok(0x8014);
    assert Legacy.Decode(0x8014) == Opcode.AddReg(0, 1);
    assert Alu.AddRegisters(m.registers, 0, 1) == NestedState(pc + 2, 1, ret, v0 + 10).registers;
  }

  /** `00EE` at 0x104 returns to `ret`. */
  lemma NestedReturn(ret: word, v0: byte)
    ensures Legacy.Step(NestedState(0x104, 1, ret, v0)) == Running(NestedState(ret, 0, ret, v0))
  {
    var m := NestedState(0x104, 1, ret, v0);
    assert m.memory[0x104] == 0x00 && m.memory[0x105] == 0xEE;
    assert Opcode.ReadOpcode(m.memory, 0x104) == Ok(0x00EE);
    assert Legacy.Decode(0x00EE) == Opcode.Rts;
  }

  /** One call of the subroutine from 0 or 2, through its two additions and its
      return: four turns that add 20 to V0 and come back to `pc + 2`. */
  lemma NestedRound(pc: nat, ret: word, v0: byte, fuel: nat)
    requires pc == 0 || pc == 2
    requires v0 + 20 < 0x100 && fuel >= 4
    ensures Legacy.Run(NestedState(pc, 0, ret, v0), fuel) == Legacy.Run(NestedState(pc + 2, 0, pc + 2, v0 + 20), fuel - 4)
  {
    var s0, s1 := NestedState(pc, 0, ret, v0), NestedState(0x100, 1, pc + 2, v0);
    var s2, s3 := NestedState(0x102, 1, pc + 2, v0 + 10), NestedState(0x104, 1, pc + 2, v0 + 20);
    var s4 := NestedState(pc + 2, 0, pc + 2, v0 + 20);
    assert Legacy.Run(s0, fuel) == Legacy.Run(s1, fuel - 1) by {
      NestedCall(pc, ret, v0);
      LegacyTurn(s0, s1, fuel);
    }
    assert Legacy.Run(s1, fuel - 1) == Legacy.Run(s2, fuel - 2) by {
      NestedAdd(0x100, pc + 2, v0);
      LegacyTurn(s1, s2, fuel - 1);
    }
    assert Legacy.Run(s2, fuel - 2) == Legacy.Run(s3, fuel - 3) by {
      NestedAdd(0x102, pc + 2, v0 + 10);
      LegacyTurn(s2, s3, fuel - 2);
    }
    assert Legacy.Run(s3, fuel - 3) == Legacy.Run(s4, fuel - 4) by {
      NestedReturn(pc + 2, v0 + 20);
      LegacyTurn(s3, s4, fuel - 3);
    }
  }

  /** The nested-call program of the earlier snapshot's test: V0 = 5, V1 = 10;
      it halts on its ninth turn with V0 = 5 + 4 * 10 = 45. */
  lemma NestedCallsSumTo45()
    ensures var registers := seq(16, k requires 0 <= k < 16 => if k == 0 then 5 else if k == 1 then 10 else 0);
      var r := Legacy.Run(Legacy.New(registers, NestedCallMemory), 9);
      r.Halted? && r.machine.registers[0] == 45
  {
    assert Legacy.New(NestedState(0, 0, 0, 5).registers, NestedCallMemory) == NestedState(0, 0, 0, 5);
    NestedRound(0, 0, 5, 9);
    NestedRound(2, 2, 25, 5);
    var last := NestedState(4, 0, 4, 45);
    assert last.memory[4] == 0 && last.memory[5] == 0;
    assert Opcode.ReadOpcode(last.memory, 4) == Ok(0x0000);
    assert Legacy.Step(last) == Halted(last.(pc := 6));
    assert Legacy.Run(last, 1) == Halted(last.(pc := 6));
  }

  /** V0 = `v0`, V1 = `v1`, the rest 0. */
  function Registers(v0: byte, v1: byte): Alu.RegisterFile
  {
    seq(16, k requires 0 <= k < 16 => if k == 0 then v0 else if k == 1 then v1 else 0)
  }

  /** A program as `new_with_memory` loads it: the boot image below, the program
      at 0x200 and zeros after it. */
  lemma Loaded(program: seq<byte>)
    requires |program| < 0xDFF
    ensures Semantics.NewWithMemory(program).Ok?
    ensures var m := Semantics.NewWithMemory(program).value;
      && m.memory[0] == 0x12 && m.memory[1] == 0x00
      && (forall a :: 0 <= a < |program| ==> m.memory[0x200 + a] == program[a])
      && m.memory[0x200 + |program|] == 0 && m.memory[0x200 + |program| + 1] == 0
      && m.registers == Registers(0, 0) && m.pc == 0 && m.sp == 0
  {
    var m := Semantics.NewWithMemory(program).value;
    assert |Semantics.BootImage| == 82;
    assert m.registers == Registers(0, 0);
  }

  /** The word at `pc` whose high byte holds the nibbles `c`, `x` and whose
      low byte is `kk`. */
  lemma OpcodeAt(memory: seq<byte>, pc: nat, c: nibble, x: nibble, kk: byte)
    requires pc + 1 < |memory| && memory[pc] == 0x10 * c + x && memory[pc + 1] == kk
    ensures Opcode.ReadOpcode(memory, pc) == Ok(0x1000 * c + 0x100 * x + kk)
  {
  }

  /** A turn of the loop fetches the word at `pc`, executes its decoding after
      `pc + 2`, and goes on with the rest of the random bytes while running. */
  lemma Turn(m: Semantics.Machine, ins: Opcode.Instruction, randoms: seq<byte>)
    requires |randoms| > 0 && m.pc + 1 < 0x1000
    requires Opcode.Decode(Opcode.ReadOpcode(m.memory, m.pc).value) == ins
    ensures Semantics.Run(m, randoms) ==
      match Semantics.Execute(m.(pc := m.pc + 2), ins, randoms[0])
      case Running(next) => Semantics.Run(next, randoms[1..])
      case other => other
  {
  }

  /** The boot turn: `1200` at 0 jumps to the program. */
  lemma BootTurn(m: Semantics.Machine, randoms: seq<byte>)
    requires |randoms| > 0 && m.pc == 0 && m.memory[0] == 0x12 && m.memory[1] == 0x00
    ensures Semantics.Run(m, randoms) == Semantics.Run(m.(pc := 0x200), randoms[1..])
  {
    OpcodeAt(m.memory, 0, 0x1, 0x2, 0x00);
    assert Opcode.Decode(0x1200) == Opcode.Jp(0x200);
    Turn(m, Opcode.Jp(0x200), randoms);
  }

  /** `6xkk` decodes to a load of `kk` into Vx. */
  lemma DecodeLoad(x: nibble, kk: byte)
    ensures Opcode.Decode(0x6000 + 0x100 * x + kk) == Opcode.LdImm(x, kk)
  {
    Opcode.SplitImmediate(0x6, x, kk);
  }

  /** A turn of `6xkk`. */
  lemma LoadTurn(m: Semantics.Machine, x: nibble, kk: byte, randoms: seq<byte>)
    requires |randoms| > 0 && m.pc + 1 < 0x1000 && m.memory[m.pc] == 0x60 + x && m.memory[m.pc + 1] == kk
    ensures Semantics.Run(m, randoms) ==
      Semantics.Run(m.(pc := m.pc + 2, registers := m.registers[x := kk]), randoms[1..])
  {
    OpcodeAt(m.memory, m.pc, 0x6, x, kk);
    DecodeLoad(x, kk);
    Turn(m, Opcode.LdImm(x, kk), randoms);
  }

  /** `7xkk` decodes to an addition of `kk` to Vx. */
  lemma DecodeAdd(x: nibble, kk: byte)
    ensures Opcode.Decode(0x7000 + 0x100 * x + kk) == Opcode.AddImm(x, kk)
  {
    Opcode.SplitImmediate(0x7, x, kk);
  }

  /** A turn of `7xkk`. */
  lemma AddTurn(m: Semantics.Machine, x: nibble, kk: byte, randoms: seq<byte>)
    requires |randoms| > 0 && m.pc + 1 < 0x1000 && m.memory[m.pc] == 0x70 + x && m.memory[m.pc + 1] == kk
    ensures Semantics.Run(m, randoms) ==
      Semantics.Run(m.(pc := m.pc + 2, registers := Alu.AddConstant(m.registers, x, kk)), randoms[1..])
  {
    OpcodeAt(m.memory, m.pc, 0x7, x, kk);
    DecodeAdd(x, kk);
    Turn(m, Opcode.AddImm(x, kk), randoms);
  }

  /** `3xkk` decodes to a skip if Vx = kk. */
  lemma DecodeSkipIfEqual(x: nibble, kk: byte)
    ensures Opcode.Decode(0x3000 + 0x100 * x + kk) == Opcode.SeImm(x, kk)
  {
    Opcode.SplitImmediate(0x3, x, kk);
  }

  /** A turn of `3xkk`: skip the next instruction when Vx = kk. */
  lemma SkipIfEqualTurn(m: Semantics.Machine, x: nibble, kk: byte, randoms: seq<byte>)
    requires |randoms| > 0 && m.pc + 1 < 0x1000 && m.memory[m.pc] == 0x30 + x && m.memory[m.pc + 1] == kk
    ensures Semantics.Run(m, randoms) ==
      Semantics.Run(m.(pc := m.pc + if m.registers[x] == kk then 4 else 2), randoms[1..])
  {
    OpcodeAt(m.memory, m.pc, 0x3, x, kk);
    DecodeSkipIfEqual(x, kk);
    Turn(m, Opcode.SeImm(x, kk), randoms);
  }

  /** `4xkk` decodes to a skip if Vx != kk. */
  lemma DecodeSkipIfDifferent(x: nibble, kk: byte)
    ensures Opcode.Decode(0x4000 + 0x100 * x + kk) == Opcode.SneImm(x, kk)
  {
    Opcode.SplitImmediate(0x4, x, kk);
  }

  /** A turn of `4xkk`: skip the next instruction when Vx != kk. */
  lemma SkipIfDifferentTurn(m: Semantics.Machine, x: nibble, kk: byte, randoms: seq<byte>)
    requires |randoms| > 0 && m.pc + 1 < 0x1000 && m.memory[m.pc] == 0x40 + x && m.memory[m.pc + 1] == kk
    ensures Semantics.Run(m, randoms) ==
      Semantics.Run(m.(pc := m.pc + if m.registers[x] != kk then 4 else 2), randoms[1..])
  {
    OpcodeAt(m.memory, m.pc, 0x4, x, kk);
    DecodeSkipIfDifferent(x, kk);
    Turn(m, Opcode.SneImm(x, kk), randoms);
  }

  /** `5xy0` decodes to a skip if Vx = Vy. */
  lemma DecodeSkipIfEqualRegisters(x: nibble, y: nibble)
    ensures Opcode.Decode(Opcode.Compose(0x5, x, y, 0)) == Opcode.SeReg(x, y)
  {
    assert Opcode.Decompose(Opcode.Compose(0x5, x, y, 0)) == (0x5, x, y, 0);
  }

  /** A turn of `5xy0`: skip the next instruction when Vx = Vy. */
  lemma SkipIfEqualRegistersTurn(m: Semantics.Machine, x: nibble, y: nibble, randoms: seq<byte>)
    requires |randoms| > 0 && m.pc + 1 < 0x1000 && m.memory[m.pc] == 0x50 + x && m.memory[m.pc + 1] == 0x10 * y
    ensures Semantics.Run(m, randoms) ==
      Semantics.Run(m.(pc := m.pc + if m.registers[x] == m.registers[y] then 4 else 2), randoms[1..])
  {
    OpcodeAt(m.memory, m.pc, 0x5, x, 0x10 * y);
    assert 0x5000 + 0x100 * x + 0x10 * y == Opcode.Compose(0x5, x, y, 0);
    DecodeSkipIfEqualRegisters(x, y);
    var next := m.(pc := m.pc + 2);
    assert Semantics.Execute(next, Opcode.SeReg(x, y), randoms[0]) ==
      Running(Semantics.SkipIfEqualRegisters(next, x, y));
    Turn(m, Opcode.SeReg(x, y), randoms);
  }

  /** `9xy0` decodes to a skip if Vx != Vy. */
  lemma DecodeSkipIfDifferentRegisters(x: nibble, y: nibble)
    ensures Opcode.Decode(Opcode.Compose(0x9, x, y, 0)) == Opcode.SneReg(x, y)
  {
    assert Opcode.Decompose(Opcode.Compose(0x9, x, y, 0)) == (0x9, x, y, 0);
  }

  /** A turn of `9xy0`: skip the next instruction when Vx != Vy. */
  lemma SkipIfDifferentRegistersTurn(m: Semantics.Machine, x: nibble, y: nibble, randoms: seq<byte>)
    requires |randoms| > 0 && m.pc + 1 < 0x1000 && m.memory[m.pc] == 0x90 + x && m.memory[m.pc + 1] == 0x10 * y
    ensures Semantics.Run(m, randoms) ==
      Semantics.Run(m.(pc := m.pc + if m.registers[x] != m.registers[y] then 4 else 2), randoms[1..])
  {
    OpcodeAt(m.memory, m.pc, 0x9, x, 0x10 * y);
    assert 0x9000 + 0x100 * x + 0x10 * y == Opcode.Compose(0x9, x, y, 0);
    DecodeSkipIfDifferentRegisters(x, y);
    var next := m.(pc := m.pc + 2);
    assert Semantics.Execute(next, Opcode.SneReg(x, y), randoms[0]) ==
      Running(Semantics.SkipIfDifferentRegisters(next, x, y));
    Turn(m, Opcode.SneReg(x, y), randoms);
  }

  /** `8xy4` decodes to an addition of Vy to Vx. */
  lemma DecodeAddRegisters(x: nibble, y: nibble)
    ensures Opcode.Decode(Opcode.Compose(0x8, x, y, 4)) == Opcode.AddReg(x, y)
  {
    assert Opcode.Decompose(Opcode.Compose(0x8, x, y, 4)) == (0x8, x, y, 4);
  }

  /** A turn of `8xy4`. */
  lemma AddRegistersTurn(m: Semantics.Machine, x: nibble, y: nibble, randoms: seq<byte>)
    requires |randoms| > 0 && m.pc + 1 < 0x1000 && m.memory[m.pc] == 0x80 + x && m.memory[m.pc + 1] == 0x10 * y + 4
    ensures Semantics.Run(m, randoms) ==
      Semantics.Run(m.(pc := m.pc + 2, registers := Alu.AddRegisters(m.registers, x, y)), randoms[1..])
  {
    OpcodeAt(m.memory, m.pc, 0x8, x, 0x10 * y + 4);
    assert 0x8000 + 0x100 * x + 0x10 * y + 4 == Opcode.Compose(0x8, x, y, 4);
    DecodeAddRegisters(x, y);
    var next := m.(pc := m.pc + 2);
    assert Semantics.Execute(next, Opcode.AddReg(x, y), randoms[0]) ==
      Running(next.(registers := Alu.AddRegisters(m.registers, x, y)));
    Turn(m, Opcode.AddReg(x, y), randoms);
  }

  /** A turn of `0000`. */
  lemma HaltTurn(m: Semantics.Machine, randoms: seq<byte>)
    requires |randoms| > 0 && m.pc + 1 < 0x1000 && m.memory[m.pc] == 0 && m.memory[m.pc + 1] == 0
    ensures Semantics.Run(m, randoms) == Halted(m.(pc := m.pc + 2))
  {
    OpcodeAt(m.memory, m.pc, 0, 0, 0);
    assert Opcode.Decode(0) == Opcode.Halt;
    Turn(m, Opcode.Halt, randoms);
  }

  const SkipProgram: seq<byte> := [0x60, 0x07, 0x30, 0x07, 0x70, 0x07, 0x40, 0x07, 0x70, 0x03]

  /** `6007` then `3007`, which skips the `7007` after it. */
  lemma ConstantLoadSkip(m: Semantics.Machine, randoms: seq<byte>)
    requires |randoms| == 5 && m.pc == 0x200 && m.registers == Registers(0, 0)
    requires m.memory[0x200] == 0x60 && m.memory[0x201] == 0x07
    requires m.memory[0x202] == 0x30 && m.memory[0x203] == 0x07
    ensures Semantics.Run(m, randoms) == Semantics.Run(m.(pc := 0x206, registers := Registers(7, 0)), randoms[2..])
  {
    LoadTurn(m, 0, 7, randoms);
    assert Registers(0, 0)[0 := 7] == Registers(7, 0);
    SkipIfEqualTurn(m.(pc := 0x202, registers := Registers(7, 0)), 0, 7, randoms[1..]);
    assert randoms[1..][1..] == randoms[2..];
  }

  /** `7003` then the halt on the zero word after the program. */
  lemma ConstantAddHalt(m: Semantics.Machine, randoms: seq<byte>)
    requires |randoms| == 2 && m.pc == 0x208 && m.registers == Registers(7, 0)
    requires m.memory[0x208] == 0x70 && m.memory[0x209] == 0x03
    requires m.memory[0x20A] == 0 && m.memory[0x20B] == 0
    ensures Semantics.Run(m, randoms) == Halted(m.(pc := 0x20C, registers := Registers(10, 0)))
  {
    AddTurn(m, 0, 3, randoms);
    assert Alu.AddConstant(Registers(7, 0), 0, 3) == Registers(10, 0);
    HaltTurn(m.(pc := 0x20A, registers := Registers(10, 0)), randoms[1..]);
  }

  /** The turns of the constant-comparison test after the boot jump: `4007`
      does not skip, so `7003` runs before the halt. */
  lemma ConstantTail(m: Semantics.Machine, randoms: seq<byte>)
    requires |randoms| == 3 && m.pc == 0x206 && m.registers == Registers(7, 0)
    requires m.memory[0x206] == 0x40 && m.memory[0x207] == 0x07
    requires m.memory[0x208] == 0x70 && m.memory[0x209] == 0x03
    requires m.memory[0x20A] == 0 && m.memory[0x20B] == 0
    ensures Semantics.Run(m, randoms) == Halted(m.(pc := 0x20C, registers := Registers(10, 0)))
  {
    SkipIfDifferentTurn(m, 0, 7, randoms);
    ConstantAddHalt(m.(pc := 0x208), randoms[1..]);
  }

  /** The constant-comparison skip test: `6007` sets V0 to 7, `3007` skips the
      `7007` after it, `4007` does not skip, and `7003` leaves V0 = 10; the
      zero word after the program halts on the sixth turn. */
  lemma SkipOnConstantSumsTo10(randoms: seq<byte>)
    requires |randoms| == 6
    ensures Semantics.NewWithMemory(SkipProgram).Ok?
    ensures var r := Semantics.Run(Semantics.NewWithMemory(SkipProgram).value, randoms);
      r.Halted? && r.machine.registers[0] == 10
  {
    Loaded(SkipProgram);
    var m := Semantics.NewWithMemory(SkipProgram).value;
    SkipProgramBytes(m.memory);
    ConstantRuns(m, randoms);
  }

  /** The bytes of the constant-comparison test as loaded at 0x200. */
  lemma SkipProgramBytes(memory: Semantics.Memory)
    requires forall a :: 0 <= a < |SkipProgram| ==> memory[0x200 + a] == SkipProgram[a]
    requires memory[0x200 + |SkipProgram|] == 0 && memory[0x200 + |SkipProgram| + 1] == 0
    ensures memory[0x200] == 0x60 && memory[0x201] == 0x07
    ensures memory[0x202] == 0x30 && memory[0x203] == 0x07
    ensures memory[0x206] == 0x40 && memory[0x207] == 0x07
    ensures memory[0x208] == 0x70 && memory[0x209] == 0x03
    ensures memory[0x20A] == 0 && memory[0x20B] == 0
  {
    assert |SkipProgram| == 10;
    assert memory[0x200 + 0] == SkipProgram[0] && memory[0x200 + 1] == SkipProgram[1];
    assert memory[0x200 + 2] == SkipProgram[2] && memory[0x200 + 3] == SkipProgram[3];
    assert memory[0x200 + 6] == SkipProgram[6] && memory[0x200 + 7] == SkipProgram[7];
    assert memory[0x200 + 8] == SkipProgram[8] && memory[0x200 + 9] == SkipProgram[9];
  }

  /** All turns of the constant-comparison test, from boot. */
  lemma ConstantRuns(m: Semantics.Machine, randoms: seq<byte>)
    requires |randoms| == 6 && m.pc == 0 && m.registers == Registers(0, 0)
    requires m.memory[0] == 0x12 && m.memory[1] == 0x00
    requires m.memory[0x200] == 0x60 && m.memory[0x201] == 0x07
    requires m.memory[0x202] == 0x30 && m.memory[0x203] == 0x07
    requires m.memory[0x206] == 0x40 && m.memory[0x207] == 0x07
    requires m.memory[0x208] == 0x70 && m.memory[0x209] == 0x03
    requires m.memory[0x20A] == 0 && m.memory[0x20B] == 0
    ensures Semantics.Run(m, randoms) == Halted(m.(pc := 0x20C, registers := Registers(10, 0)))
  {
    ConstantHead(m, randoms);
    ConstantTail(m.(pc := 0x206, registers := Registers(7, 0)), randoms[3..]);
  }

  /** The first three turns of the constant-comparison test: the boot jump,
      `6007`, and `3007`, which skips. */
  lemma ConstantHead(m: Semantics.Machine, randoms: seq<byte>)
    requires |randoms| == 6 && m.pc == 0 && m.registers == Registers(0, 0)
    requires m.memory[0] == 0x12 && m.memory[1] == 0x00
    requires m.memory[0x200] == 0x60 && m.memory[0x201] == 0x07
    requires m.memory[0x202] == 0x30 && m.memory[0x203] == 0x07
    ensures Semantics.Run(m, randoms) == Semantics.Run(m.(pc := 0x206, registers := Registers(7, 0)), randoms[3..])
  {
    BootTurn(m, randoms);
    ConstantLoadSkip(m.(pc := 0x200), randoms[1..]);
    assert randoms[1..][2..] == randoms[3..];
  }

  lemma SevenPlusSeven()
    ensures Alu.AddRegisters(Registers(7, 7), 0, 1) == Registers(14, 7)
  {
    var r := Alu.AddRegisters(Registers(7, 7), 0, 1);
    assert r[0] == 14 && r[Alu.VF] == 0;
    assert forall k :: 0 <= k < 16 ==> r[k] == Registers(14, 7)[k];
  }

  const CompareProgram: seq<byte> := [0x60, 0x07, 0x61, 0x07, 0x50, 0x10, 0x70, 0x07, 0x90, 0x10, 0x80, 0x14]

  /** `6007` then `6107`. */
  lemma CompareLoads(m: Semantics.Machine, randoms: seq<byte>)
    requires |randoms| == 6 && m.pc == 0x200 && m.registers == Registers(0, 0)
    requires m.memory[0x200] == 0x60 && m.memory[0x201] == 0x07
    requires m.memory[0x202] == 0x61 && m.memory[0x203] == 0x07
    ensures Semantics.Run(m, randoms) == Semantics.Run(m.(pc := 0x204, registers := Registers(7, 7)), randoms[2..])
  {
    LoadTurn(m, 0, 7, randoms);
    assert Registers(0, 0)[0 := 7] == Registers(7, 0);
    LoadTurn(m.(pc := 0x202, registers := Registers(7, 0)), 1, 7, randoms[1..]);
    assert Registers(7, 0)[1 := 7] == Registers(7, 7);
    assert randoms[1..][1..] == randoms[2..];
  }

  /** The first three turns of the register-comparison test: the boot jump and
      two loads of 7, into V0 and V1. */
  lemma CompareHead(m: Semantics.Machine, randoms: seq<byte>)
    requires |randoms| == 7 && m.pc == 0 && m.registers == Registers(0, 0)
    requires m.memory[0] == 0x12 && m.memory[1] == 0x00
    requires m.memory[0x200] == 0x60 && m.memory[0x201] == 0x07
    requires m.memory[0x202] == 0x61 && m.memory[0x203] == 0x07
    ensures Semantics.Run(m, randoms) == Semantics.Run(m.(pc := 0x204, registers := Registers(7, 7)), randoms[3..])
  {
    BootTurn(m, randoms);
    CompareLoads(m.(pc := 0x200), randoms[1..]);
    assert randoms[1..][2..] == randoms[3..];
  }

  /** `8014` then the halt on the zero word after the program. */
  lemma CompareAddHalt(m: Semantics.Machine, randoms: seq<byte>)
    requires |randoms| == 2 && m.pc == 0x20A && m.registers == Registers(7, 7)
    requires m.memory[0x20A] == 0x80 && m.memory[0x20B] == 0x14
    requires m.memory[0x20C] == 0 && m.memory[0x20D] == 0
    ensures Semantics.Run(m, randoms) == Halted(m.(pc := 0x20E, registers := Registers(14, 7)))
  {
    AddRegistersTurn(m, 0, 1, randoms);
    SevenPlusSeven();
    HaltTurn(m.(pc := 0x20C, registers := Registers(14, 7)), randoms[1..]);
  }

  /** `9010`, which does not skip, then `8014` and the halt. */
  lemma CompareEnd(m: Semantics.Machine, randoms: seq<byte>)
    requires |randoms| == 3 && m.pc == 0x208 && m.registers == Registers(7, 7)
    requires m.memory[0x208] == 0x90 && m.memory[0x209] == 0x10
    requires m.memory[0x20A] == 0x80 && m.memory[0x20B] == 0x14
    requires m.memory[0x20C] == 0 && m.memory[0x20D] == 0
    ensures Semantics.Run(m, randoms) == Halted(m.(pc := 0x20E, registers := Registers(14, 7)))
  {
    SkipIfDifferentRegistersTurn(m, 0, 1, randoms);
    CompareAddHalt(m.(pc := 0x20A), randoms[1..]);
  }

  /** The last four turns of the register-comparison test, from V0 = V1 = 7 at
      0x204: `5010` skips the `7007`, and the rest runs to the halt. */
  lemma CompareTail(m: Semantics.Machine, randoms: seq<byte>)
    requires |randoms| == 4 && m.pc == 0x204 && m.registers == Registers(7, 7)
    requires m.memory[0x204] == 0x50 && m.memory[0x205] == 0x10
    requires m.memory[0x208] == 0x90 && m.memory[0x209] == 0x10
    requires m.memory[0x20A] == 0x80 && m.memory[0x20B] == 0x14
    requires m.memory[0x20C] == 0 && m.memory[0x20D] == 0
    ensures Semantics.Run(m, randoms) == Halted(m.(pc := 0x20E, registers := Registers(14, 7)))
  {
    SkipIfEqualRegistersTurn(m, 0, 1, randoms);
    CompareEnd(m.(pc := 0x208), randoms[1..]);
  }

  /** The bytes of the register-comparison test as loaded at 0x200. */
  lemma CompareProgramBytes(memory: Semantics.Memory)
    requires forall a :: 0 <= a < |CompareProgram| ==> memory[0x200 + a] == CompareProgram[a]
    requires memory[0x200 + |CompareProgram|] == 0 && memory[0x200 + |CompareProgram| + 1] == 0
    ensures memory[0x200] == 0x60 && memory[0x201] == 0x07
    ensures memory[0x202] == 0x61 && memory[0x203] == 0x07
    ensures memory[0x204] == 0x50 && memory[0x205] == 0x10
    ensures memory[0x208] == 0x90 && memory[0x209] == 0x10
    ensures memory[0x20A] == 0x80 && memory[0x20B] == 0x14
    ensures memory[0x20C] == 0 && memory[0x20D] == 0
  {
    assert |CompareProgram| == 12;
    assert memory[0x200 + 0] == CompareProgram[0] && memory[0x200 + 1] == CompareProgram[1];
    assert memory[0x200 + 2] == CompareProgram[2] && memory[0x200 + 3] == CompareProgram[3];
    assert memory[0x200 + 4] == CompareProgram[4] && memory[0x200 + 5] == CompareProgram[5];
    assert memory[0x200 + 8] == CompareProgram[8] && memory[0x200 + 9] == CompareProgram[9];
    assert memory[0x200 + 10] == CompareProgram[10] && memory[0x200 + 11] == CompareProgram[11];
  }

  /** All turns of the register-comparison test, from boot. */
  lemma CompareRuns(m: Semantics.Machine, randoms: seq<byte>)
    requires |randoms| == 7 && m.pc == 0 && m.registers == Registers(0, 0)
    requires m.memory[0] == 0x12 && m.memory[1] == 0x00
    requires m.memory[0x200] == 0x60 && m.memory[0x201] == 0x07
    requires m.memory[0x202] == 0x61 && m.memory[0x203] == 0x07
    requires m.memory[0x204] == 0x50 && m.memory[0x205] == 0x10
    requires m.memory[0x208] == 0x90 && m.memory[0x209] == 0x10
    requires m.memory[0x20A] == 0x80 && m.memory[0x20B] == 0x14
    requires m.memory[0x20C] == 0 && m.memory[0x20D] == 0
    ensures Semantics.Run(m, randoms) == Halted(m.(pc := 0x20E, registers := Registers(14, 7)))
  {
    CompareHead(m, randoms);
    CompareTail(m.(pc := 0x204, registers := Registers(7, 7)), randoms[3..]);
  }

  /** The register-comparison skip test: V0 and V1 both become 7, `5010` skips
      the `7007`, `9010` does not skip, and `8014` leaves V0 = 14, V1 = 7; the
      machine halts on the seventh turn. */
  lemma SkipOnRegistersSumsTo14(randoms: seq<byte>)
    requires |randoms| == 7
    ensures Semantics.NewWithMemory(CompareProgram).Ok?
    ensures var r := Semantics.Run(Semantics.NewWithMemory(CompareProgram).value, randoms);
      r.Halted? && r.machine.registers[0] == 14 && r.machine.registers[1] == 7
  {
    Loaded(CompareProgram);
    var m := Semantics.NewWithMemory(CompareProgram).value;
    CompareProgramBytes(m.memory);
    CompareRuns(m, randoms);
  }

  /** The program of the load test. */
  const LoadProgram: seq<byte> := [0x60, 0xFF]

  /** `60FF` at 0x200, then the halt. */
  lemma LoadThenHalt(s: Semantics.Machine, randoms: seq<byte>)
    requires |randoms| == 2 && s.pc == 0x200 && s.registers == Registers(0, 0)
    requires s.memory[0x200] == 0x60 && s.memory[0x201] == 0xFF
    requires s.memory[0x202] == 0 && s.memory[0x203] == 0
    ensures Semantics.Run(s, randoms) == Halted(s.(pc := 0x204, registers := Registers(0xFF, 0)))
  {
    LoadTurn(s, 0, 0xFF, randoms);
    assert Registers(0, 0)[0 := 0xFF] == Registers(0xFF, 0);
    HaltTurn(s.(pc := 0x202, registers := Registers(0xFF, 0)), randoms[1..]);
  }

  /** The turns of the load test: the boot jump, `60FF` and the halt. */
  lemma LoadTurns(m: Semantics.Machine, randoms: seq<byte>)
    requires |randoms| == 3 && m.pc == 0 && m.registers == Registers(0, 0)
    requires m.memory[0] == 0x12 && m.memory[1] == 0x00
    requires m.memory[0x200] == 0x60 && m.memory[0x201] == 0xFF
    requires m.memory[0x202] == 0 && m.memory[0x203] == 0
    ensures Semantics.Run(m, randoms) == Halted(m.(pc := 0x204, registers := Registers(0xFF, 0)))
  {
    BootTurn(m, randoms);
    LoadThenHalt(m.(pc := 0x200), randoms[1..]);
  }

  /** The load test: `60FF` leaves V0 = 0xFF, and the machine halts on the third turn. */
  lemma LoadNumber(randoms: seq<byte>)
    requires |randoms| == 3
    ensures Semantics.NewWithMemory(LoadProgram).Ok?
    ensures var r := Semantics.Run(Semantics.NewWithMemory(LoadProgram).value, randoms);
      r.Halted? && r.machine.registers[0] == 0xFF
  {
    Loaded(LoadProgram);
    var m := Semantics.NewWithMemory(LoadProgram).value;
    assert m.memory[0x200 + 0] == 0x60 && m.memory[0x200 + 1] == 0xFF;
    LoadTurns(m, randoms);
  }

  /** The program of the stack-underflow test. */
  const ReturnProgram: seq<byte> := [0x00, 0xEE]

  /** The turns of the stack-underflow test: the boot jump, then `00EE` with an
      empty stack. */
  lemma ReturnTurns(m: Semantics.Machine, randoms: seq<byte>)
    requires |randoms| >= 2 && m.pc == 0 && m.sp == 0
    requires m.memory[0] == 0x12 && m.memory[1] == 0x00
    requires m.memory[0x200] == 0x00 && m.memory[0x201] == 0xEE
    ensures Semantics.Run(m, randoms) == Failed(StackUnderflow)
  {
    BootTurn(m, randoms);
    var s := m.(pc := 0x200);
    OpcodeAt(s.memory, s.pc, 0, 0, 0xEE);
    assert Opcode.Decode(0x00EE) == Opcode.Rts;
    Turn(s, Opcode.Rts, randoms[1..]);
  }

  /** The stack-underflow test: `00EE` with nothing on the stack fails. */
  lemma ReturnWithEmptyStackFails(randoms: seq<byte>)
    requires |randoms| >= 2
    ensures Semantics.NewWithMemory(ReturnProgram).Ok?
    ensures Semantics.Run(Semantics.NewWithMemory(ReturnProgram).value, randoms) == Failed(StackUnderflow)
  {
    Loaded(ReturnProgram);
    var m := Semantics.NewWithMemory(ReturnProgram).value;
    assert m.memory[0x200 + 0] == 0x00 && m.memory[0x200 + 1] == 0xEE;
    ReturnTurns(m, randoms);
  }

  /** The program of the illegal-jump test. */
  const JumpProgram: seq<byte> := [0x1F, 0xFF]

  /** The turns of the illegal-jump test: the boot jump, then `1FFF`. */
  lemma JumpTurns(m: Semantics.Machine, randoms: seq<byte>)
    requires |randoms| >= 2 && m.pc == 0
    requires m.memory[0] == 0x12 && m.memory[1] == 0x00
    requires m.memory[0x200] == 0x1F && m.memory[0x201] == 0xFF
    ensures Semantics.Run(m, randoms) == Failed(IllegalJump)
  {
    BootTurn(m, randoms);
    var s := m.(pc := 0x200);
    OpcodeAt(s.memory, s.pc, 0x1, 0xF, 0xFF);
    assert Opcode.Decode(0x1FFF) == Opcode.Jp(0xFFF);
    assert Semantics.JumpTo(s.(pc := 0x202), 0xFFF) == Err(IllegalJump);
    Turn(s, Opcode.Jp(0xFFF), randoms[1..]);
  }

  /** The illegal-jump test: `1FFF` targets the last byte of memory and fails. */
  lemma JumpToLastByteFails(randoms: seq<byte>)
    requires |randoms| >= 2
    ensures Semantics.NewWithMemory(JumpProgram).Ok?
    ensures Semantics.Run(Semantics.NewWithMemory(JumpProgram).value, randoms) == Failed(IllegalJump)
  {
    Loaded(JumpProgram);
    var m := Semantics.NewWithMemory(JumpProgram).value;
    assert m.memory[0x200 + 0] == 0x1F && m.memory[0x200 + 1] == 0xFF;
    JumpTurns(m, randoms);
  }

  /** Sixteen `2000` words, the program of the stack-overflow test. */
  const CallProgram: seq<byte> := seq(32, k => if k % 2 == 0 then 0x20 else 0x00)

  /** The stack-overflow test: the sixteen calls that fit are followed by a
      seventeenth that fails, on turn 34, and the failure is final. */
  lemma SeventeenthCallOverflows(randoms: seq<byte>)
    requires |randoms| >= 34
    ensures Semantics.NewWithMemory(CallProgram).Ok?
    ensures Semantics.Run(Semantics.NewWithMemory(CallProgram).value, randoms) == Failed(StackOverflow)
  {
    Loaded(CallProgram);
    var m := Semantics.NewWithMemory(CallProgram).value;
    assert m.memory[0x200 + 0] == CallProgram[0] && m.memory[0x200 + 1] == CallProgram[1];
    Properties.CallLoopOverflows(m, randoms[..34]);
    Properties.RunStops(m, randoms[..34], randoms[34..]);
    assert randoms[..34] + randoms[34..] == randoms;
  }
}
