/** Properties of the interpreter that relate several instructions or turns:
    round trips, the stack discipline, XOR drawing, the boot sequence, and the
    agreement of the earlier snapshot with the full instruction set. */
module Properties {
  import opened Bits
  import opened Faults
  import Opcode
  import Alu
  import Screen
  import opened Semantics
  import Legacy

  /** A call followed by a return restores the stack pointer and, for any `pc`
      a `u16` can hold, the program counter; the only trace left is the return
      address in the slot the call used. */
  lemma CallThenReturn(m: Machine, nnn: address)
    requires m.sp < 16
    ensures Call(m, nnn).Ok?
    ensures var called := Call(m, nnn).value;
      Ret(called) == Ok(m.(pc := m.pc % 0x1_0000, stack := m.stack[m.sp := m.pc % 0x1_0000]))
  {
  }

  /** Storing V0..=Vx and loading them back from the same I is a round trip: it
      fails exactly when the store does, and otherwise changes nothing more. */
  lemma StoreThenLoad(m: Machine, x: nibble)
    ensures StoreRegistersUpTo(m, x).Ok? <==> LoadRegistersUpTo(m, x).Ok?
    ensures StoreRegistersUpTo(m, x).Ok? ==>
      var stored := StoreRegistersUpTo(m, x).value;
      LoadRegistersUpTo(stored, x) == Ok(stored)
  {
    if StoreRegistersUpTo(m, x).Ok? {
      var stored := StoreRegistersUpTo(m, x).value;
      assert LoadRegistersUpTo(stored, x).value.registers == stored.registers;
    }
  }

  /** Loading V0..=Vx and storing them back to the same I leaves memory as it was. */
  lemma LoadThenStore(m: Machine, x: nibble)
    ensures LoadRegistersUpTo(m, x).Ok? ==>
      var loaded := LoadRegistersUpTo(m, x).value;
      StoreRegistersUpTo(loaded, x) == Ok(loaded) && loaded.memory == m.memory
  {
    if LoadRegistersUpTo(m, x).Ok? {
      var loaded := LoadRegistersUpTo(m, x).value;
      assert StoreRegistersUpTo(loaded, x).value.memory == loaded.memory;
    }
  }

  /** Drawing the same sprite twice at the same place restores the display, as
      long as neither coordinate register is VF (the first draw rewrites VF). */
  lemma DrawTwice(m: Machine, x: nibble, y: nibble, n: nibble)
    requires x != Alu.VF && y != Alu.VF
    requires DrawAt(m, x, y, n).Ok?
    ensures var once := DrawAt(m, x, y, n).value;
      DrawAt(once, x, y, n).Ok? && DrawAt(once, x, y, n).value.display == m.display
  {
    var once := DrawAt(m, x, y, n).value;
    var sprite := m.memory[m.pointer..m.pointer + n];
    assert once.memory[once.pointer..once.pointer + n] == sprite;
    assert once.registers[x] == m.registers[x] && once.registers[y] == m.registers[y];
    Screen.BlitTwice(m.display, sprite, m.registers[x] % 64, m.registers[y] % 32);
  }

  /** The boot image: whatever program is loaded, the first turn jumps from 0 to
      the program at 0x200. */
  lemma BootJumpsToProgram(program: seq<byte>, random: byte)
    requires |program| <= 0xE00
    ensures NewWithMemory(program).Ok?
    ensures var m := NewWithMemory(program).value;
      Step(m, random) == Running(m.(pc := ProgramStart))
  {
    var m := NewWithMemory(program).value;
    assert m.memory[0] == 0x12 && m.memory[1] == 0x00;
    assert Opcode.ReadOpcode(m.memory, 0) == Ok(0x1200);
    assert Opcode.Decode(0x1200) == Opcode.Jp(0x200);
  }

  /** Turns are compositional: running `a + b` is running `a`, then, if the
      machine is still running, running `b` from where `a` stopped. */
  lemma {:induction false} RunSplits(m: Machine, a: seq<byte>, b: seq<byte>)
    ensures Run(m, a + b) == match Run(m, a)
      case Running(next) => Run(next, b)
      case other => other
    decreases |a|
  {
    if |a| > 0 {
      var first := Step(m, a[0]);
      assert (a + b)[0] == a[0] && (a + b)[1..] == a[1..] + b;
      if first.Running? {
        RunSplits(first.machine, a[1..], b);
      }
    } else {
      assert a + b == b;
    }
  }

  /** A halt or a fault is final: more turns do not change the outcome. */
  lemma RunStops(m: Machine, a: seq<byte>, b: seq<byte>)
    requires !Run(m, a).Running?
    ensures Run(m, a + b) == Run(m, a)
  {
    RunSplits(m, a, b);
  }

  /** A machine with `jump 0x200` at 0 and `call 0x000` at 0x200, the program of
      the stack-overflow test. */
  predicate CallLoop(m: Machine)
  {
    m.memory[0] == 0x12 && m.memory[1] == 0x00 && m.memory[0x200] == 0x20 && m.memory[0x201] == 0x00
  }

  /** One lap of the call loop: two turns that push 0x202 and come back to 0. */
  lemma CallLoopLap(m: Machine, r1: byte, r2: byte)
    requires CallLoop(m) && m.pc == 0 && m.sp < 16
    ensures Run(m, [r1, r2]) == Running(m.(sp := m.sp + 1, stack := m.stack[m.sp := 0x202]))
  {
    assert Opcode.ReadOpcode(m.memory, 0) == Ok(0x1200);
    assert Opcode.Decode(0x1200) == Opcode.Jp(0x200);
    var jumped := m.(pc := 0x200);
    assert Step(m, r1) == Running(jumped);
    assert Opcode.ReadOpcode(jumped.memory, 0x200) == Ok(0x2000);
    assert Opcode.Decode(0x2000) == Opcode.CallSub(0);
    var lapped := m.(sp := m.sp + 1, stack := m.stack[m.sp := 0x202]);
    assert Step(jumped, r2) == Running(lapped);
    assert [r1, r2][1..] == [r2] && [r2][1..] == [];
    assert Run(jumped, [r2]) == Run(lapped, []);
  }

  /** The call loop overflows the stack: from depth `sp`, the call that would
      push a seventeenth return address fails, after 2 * (16 - sp) + 2 turns. */
  lemma {:induction false} CallLoopOverflows(m: Machine, randoms: seq<byte>)
    requires CallLoop(m) && m.pc == 0
    requires |randoms| == 2 * (16 - m.sp) + 2
    ensures Run(m, randoms) == Failed(StackOverflow)
    decreases 16 - m.sp
  {
    if m.sp < 16 {
      var lapped := m.(sp := m.sp + 1, stack := m.stack[m.sp := 0x202]);
      CallLoopLap(m, randoms[0], randoms[1]);
      assert randoms == [randoms[0], randoms[1]] + randoms[2..];
      RunSplits(m, [randoms[0], randoms[1]], randoms[2..]);
      CallLoopOverflows(lapped, randoms[2..]);
    } else {
      assert Opcode.ReadOpcode(m.memory, 0) == Ok(0x1200);
      assert Opcode.Decode(0x1200) == Opcode.Jp(0x200);
      var jumped := m.(pc := 0x200);
      assert Step(m, randoms[0]) == Running(jumped);
      assert Opcode.ReadOpcode(jumped.memory, 0x200) == Ok(0x2000);
      assert Opcode.Decode(0x2000) == Opcode.CallSub(0);
      assert Step(jumped, randoms[1]) == Failed(StackOverflow);
      assert randoms[1..][1..] == [];
    }
  }

  /** The earlier snapshot's state inside the later one's: everything but I and
      the display. */
  function Project(m: Machine): Legacy.Machine
  {
    Legacy.Machine(m.registers, m.pc, m.memory, m.stack, m.sp)
  }

  /** The two snapshots end a turn alike: both run on to states that agree
      outside I and the display, both halt likewise, or both fail (the fault
      kind may differ: at depth 16 the earlier `call` fails on the index). */
  predicate Agree(early: Outcome<Legacy.Machine>, late: Outcome<Machine>)
  {
    match (early, late)
    case (Running(e), Running(l)) => e == Project(l)
    case (Halted(e), Halted(l)) => e == Project(l)
    case (Failed(_), Failed(_)) => true
    case _ => false
  }

  /** Every opcode the earlier `run` knows decodes to the same instruction in the
      later dispatch table, and the earlier `run` knows exactly the opcodes that
      the later table decodes to one of its five kinds of instruction. */
  lemma LegacyDecodeAgrees(op: word)
    ensures !Legacy.Decode(op).Unknown? ==> Legacy.Decode(op) == Opcode.Decode(op)
    ensures var ins := Opcode.Decode(op);
      Legacy.Decode(op).Unknown? <==> !(ins.Halt? || ins.Rts? || ins.CallSub? || ins.AddReg? || ins.AddImm?)
  {
    var (c, x, y, d) := Opcode.Decompose(op);
    if c == 0x0 {
    } else if c == 0x8 {
    } else {
    }
  }

  /** On every opcode it knows, a turn of the earlier snapshot agrees with a turn
      of the later one; on any other it fails as unimplemented. */
  lemma LegacyStepAgrees(m: Machine, random: byte)
    ensures (Legacy.Step(Project(m)).Failed? && Legacy.Step(Project(m)).fault.Unimplemented?) ||
            Agree(Legacy.Step(Project(m)), Step(m, random))
  {
    match Opcode.ReadOpcode(m.memory, m.pc)
    case Err(_) =>
    case Ok(op) =>
      LegacyDecodeAgrees(op);
  }

  /** At every depth the earlier `call` fails where the later one does. */
  lemma LegacyCallFailsAlike(m: Machine, nnn: address)
    ensures Legacy.Call(Project(m), nnn).Err? <==> Call(m, nnn).Err?
    ensures Call(m, nnn).Ok? ==> Legacy.Call(Project(m), nnn) == Ok(Project(Call(m, nnn).value))
  {
  }
}
