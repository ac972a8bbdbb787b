/** Writing instructions back as opcodes, and the proof that decoding and
    encoding are inverse. */
module Assembly {
  import opened Bits
  import opened Opcode

  /** The opcode an instruction is written as; the inverse of `Decode`. */
  function Encode(ins: Instruction): word
  {
    match ins
    case Halt => 0x0000
    case Cls => 0x00E0
    case Rts => 0x00EE
    case Jp(nnn) => 0x1000 + nnn
    case CallSub(nnn) => 0x2000 + nnn
    case SeImm(x, kk) => 0x3000 + 0x100 * x + kk
    case SneImm(x, kk) => 0x4000 + 0x100 * x + kk
    case SeReg(x, y) => Compose(0x5, x, y, 0x0)
    case LdImm(x, kk) => 0x6000 + 0x100 * x + kk
    case AddImm(x, kk) => 0x7000 + 0x100 * x + kk
    case LdReg(x, y) => Compose(0x8, x, y, 0x0)
    case OrReg(x, y) => Compose(0x8, x, y, 0x1)
    case AndReg(x, y) => Compose(0x8, x, y, 0x2)
    case XorReg(x, y) => Compose(0x8, x, y, 0x3)
    case AddReg(x, y) => Compose(0x8, x, y, 0x4)
    case SubReg(x, y) => Compose(0x8, x, y, 0x5)
    case ShrReg(x, y) => Compose(0x8, x, y, 0x6)
    case SubnReg(x, y) => Compose(0x8, x, y, 0x7)
    case ShlReg(x, y) => Compose(0x8, x, y, 0xE)
    case SneReg(x, y) => Compose(0x9, x, y, 0x0)
    case LdI(nnn) => 0xA000 + nnn
    case JpV0(nnn) => 0xB000 + nnn
    case Rnd(x, kk) => 0xC000 + 0x100 * x + kk
    case Drw(x, y, n) => Compose(0xD, x, y, n)
    case AddI(x) => Compose(0xF, x, 0x1, 0xE)
    case LdFont(x) => Compose(0xF, x, 0x2, 0x9)
    case LdBcd(x) => Compose(0xF, x, 0x3, 0x3)
    case StoreRegs(x) => Compose(0xF, x, 0x5, 0x5)
    case LoadRegs(x) => Compose(0xF, x, 0x6, 0x5)
    case Unknown(op) => op
  }

  /** Decoding loses nothing: every opcode is the encoding of what it decodes to. */
  lemma EncodeDecode(op: word)
    ensures Encode(Decode(op)) == op
  {
    var c := Decompose(op).0;
    if c == 0x0 {
      EncodeDecodeSystem(op);
    } else if c == 0x8 {
      EncodeDecodeRegisters(op);
    } else if c == 0xF {
      EncodeDecodeMisc(op);
    } else if c in {0x1, 0x2, 0xA, 0xB} {
      EncodeDecodeAddress(op);
    } else if c in {0x3, 0x4, 0x6, 0x7, 0xC} {
      EncodeDecodeImmediate(op);
    } else {
      EncodeDecodePair(op);
    }
  }

  /** The 0nnn group: 0000, 00E0, 00EE and the unknown rest. */
  lemma EncodeDecodeSystem(op: word)
    requires Decompose(op).0 == 0x0
    ensures Encode(Decode(op)) == op
  {
  }

  /** The 8xyd group. */
  lemma EncodeDecodeRegisters(op: word)
    requires Decompose(op).0 == 0x8
    ensures Encode(Decode(op)) == op
  {
  }

  /** The Fxyd group. */
  lemma EncodeDecodeMisc(op: word)
    requires Decompose(op).0 == 0xF
    ensures Encode(Decode(op)) == op
  {
  }

  /** The groups whose operand is an address. */
  lemma EncodeDecodeAddress(op: word)
    requires Decompose(op).0 in {0x1, 0x2, 0xA, 0xB}
    ensures Encode(Decode(op)) == op
  {
    var (_, x, y, d) := Decompose(op);
    assert Nnn(op) == 0x100 * x + 0x10 * y + d;
  }

  /** The groups whose operands are a register and a byte. */
  lemma EncodeDecodeImmediate(op: word)
    requires Decompose(op).0 in {0x3, 0x4, 0x6, 0x7, 0xC}
    ensures Encode(Decode(op)) == op
  {
    var (_, x, y, d) := Decompose(op);
    assert Kk(op) == 0x10 * y + d;
  }

  /** 5xy0, 9xy0, Dxyn and the unassigned Exxx group. */
  lemma EncodeDecodePair(op: word)
    requires Decompose(op).0 in {0x5, 0x9, 0xD, 0xE}
    ensures Encode(Decode(op)) == op
  {
  }

  /** An instruction is well formed when it is not an `Unknown` standing for an
      opcode the table recognises. */
  predicate WellFormed(ins: Instruction)
  {
    ins.Unknown? ==> Decode(ins.opcode).Unknown?
  }

  /** Every well-formed instruction decodes back from its encoding. */
  lemma DecodeEncode(ins: Instruction)
    requires WellFormed(ins)
    ensures Decode(Encode(ins)) == ins
  {
    match ins
    case Jp(_) => DecodeEncodeAddress(ins);
    case CallSub(_) => DecodeEncodeAddress(ins);
    case LdI(_) => DecodeEncodeAddress(ins);
    case JpV0(_) => DecodeEncodeAddress(ins);
    case SeImm(_, _) => DecodeEncodeImmediate(ins);
    case SneImm(_, _) => DecodeEncodeImmediate(ins);
    case LdImm(_, _) => DecodeEncodeImmediate(ins);
    case AddImm(_, _) => DecodeEncodeImmediate(ins);
    case Rnd(_, _) => DecodeEncodeImmediate(ins);
    case AddI(_) => DecodeEncodePointer(ins);
    case LdFont(_) => DecodeEncodePointer(ins);
    case LdBcd(_) => DecodeEncodeMemory(ins);
    case StoreRegs(_) => DecodeEncodeMemory(ins);
    case LoadRegs(_) => DecodeEncodeMemory(ins);
    case SeReg(_, _) => DecodeEncodeSkips(ins);
    case SneReg(_, _) => DecodeEncodeSkips(ins);
    case Drw(_, _, _) => DecodeEncodeSkips(ins);
    case LdReg(_, _) => DecodeEncodeCopyLogic(ins);
    case OrReg(_, _) => DecodeEncodeCopyLogic(ins);
    case AndReg(_, _) => DecodeEncodeCopyLogic(ins);
    case XorReg(_, _) => DecodeEncodeCopyLogic(ins);
    case AddReg(_, _) => DecodeEncodeArithmetic(ins);
    case SubReg(_, _) => DecodeEncodeArithmetic(ins);
    case ShrReg(_, _) => DecodeEncodeArithmetic(ins);
    case SubnReg(_, _) => DecodeEncodeArithmetic(ins);
    case ShlReg(_, _) => DecodeEncodeArithmetic(ins);
    case Halt =>
    case Cls =>
    case Rts =>
    case Unknown(_) =>
  }

  /** The instructions with an address operand. */
  lemma DecodeEncodeAddress(ins: Instruction)
    requires ins.Jp? || ins.CallSub? || ins.LdI? || ins.JpV0?
    ensures Decode(Encode(ins)) == ins
  {
    match ins
    case Jp(nnn) => Opcode.SplitAddress(0x1, nnn);
    case CallSub(nnn) => Opcode.SplitAddress(0x2, nnn);
    case LdI(nnn) => Opcode.SplitAddress(0xA, nnn);
    case JpV0(nnn) => Opcode.SplitAddress(0xB, nnn);
  }

  /** The instructions with a register and an immediate byte. */
  lemma DecodeEncodeImmediate(ins: Instruction)
    requires ins.SeImm? || ins.SneImm? || ins.LdImm? || ins.AddImm? || ins.Rnd?
    ensures Decode(Encode(ins)) == ins
  {
    match ins
    case SeImm(x, kk) => assert Encode(ins) == 0x3000 + 0x100 * x + kk; Opcode.SplitImmediate(0x3, x, kk);
    case SneImm(x, kk) => assert Encode(ins) == 0x4000 + 0x100 * x + kk; Opcode.SplitImmediate(0x4, x, kk);
    case LdImm(x, kk) => assert Encode(ins) == 0x6000 + 0x100 * x + kk; Opcode.SplitImmediate(0x6, x, kk);
    case AddImm(x, kk) => assert Encode(ins) == 0x7000 + 0x100 * x + kk; Opcode.SplitImmediate(0x7, x, kk);
    case Rnd(x, kk) => assert Encode(ins) == 0xC000 + 0x100 * x + kk; Opcode.SplitImmediate(0xC, x, kk);
  }

  /** Fx1E and Fx29. */
  lemma DecodeEncodePointer(ins: Instruction)
    requires ins.AddI? || ins.LdFont?
    ensures Decode(Encode(ins)) == ins
  {
    match ins
    case AddI(x) => assert Encode(ins) == Compose(0xF, x, 0x1, 0xE); DecodeComposed(0xF, x, 0x1, 0xE);
    case LdFont(x) => assert Encode(ins) == Compose(0xF, x, 0x2, 0x9); DecodeComposed(0xF, x, 0x2, 0x9);
  }

  /** Fx33, Fx55 and Fx65. */
  lemma DecodeEncodeMemory(ins: Instruction)
    requires ins.LdBcd? || ins.StoreRegs? || ins.LoadRegs?
    ensures Decode(Encode(ins)) == ins
  {
    match ins
    case LdBcd(x) => assert Encode(ins) == Compose(0xF, x, 0x3, 0x3); DecodeComposed(0xF, x, 0x3, 0x3);
    case StoreRegs(x) => assert Encode(ins) == Compose(0xF, x, 0x5, 0x5); DecodeComposed(0xF, x, 0x5, 0x5);
    case LoadRegs(x) => assert Encode(ins) == Compose(0xF, x, 0x6, 0x5); DecodeComposed(0xF, x, 0x6, 0x5);
  }

  /** 5xy0, 9xy0 and Dxyn. */
  lemma DecodeEncodeSkips(ins: Instruction)
    requires ins.SeReg? || ins.SneReg? || ins.Drw?
    ensures Decode(Encode(ins)) == ins
  {
    match ins
    case SeReg(x, y) => assert Encode(ins) == Compose(0x5, x, y, 0x0); DecodeComposed(0x5, x, y, 0x0);
    case SneReg(x, y) => assert Encode(ins) == Compose(0x9, x, y, 0x0); DecodeComposed(0x9, x, y, 0x0);
    case Drw(x, y, n) => assert Encode(ins) == Compose(0xD, x, y, n); DecodeComposed(0xD, x, y, n);
  }

  /** 8xy0 to 8xy3. */
  lemma DecodeEncodeCopyLogic(ins: Instruction)
    requires ins.LdReg? || ins.OrReg? || ins.AndReg? || ins.XorReg?
    ensures Decode(Encode(ins)) == ins
  {
    match ins
    case LdReg(x, y) => assert Encode(ins) == Compose(0x8, x, y, 0x0); DecodeComposed(0x8, x, y, 0x0);
    case OrReg(x, y) => assert Encode(ins) == Compose(0x8, x, y, 0x1); DecodeComposed(0x8, x, y, 0x1);
    case AndReg(x, y) => assert Encode(ins) == Compose(0x8, x, y, 0x2); DecodeComposed(0x8, x, y, 0x2);
    case XorReg(x, y) => assert Encode(ins) == Compose(0x8, x, y, 0x3); DecodeComposed(0x8, x, y, 0x3);
  }

  /** 8xy4 to 8xyE. */
  lemma DecodeEncodeArithmetic(ins: Instruction)
    requires ins.AddReg? || ins.SubReg? || ins.ShrReg? || ins.SubnReg? || ins.ShlReg?
    ensures Decode(Encode(ins)) == ins
  {
    match ins
    case AddReg(x, y) => assert Encode(ins) == Compose(0x8, x, y, 0x4); DecodeComposed(0x8, x, y, 0x4);
    case SubReg(x, y) => assert Encode(ins) == Compose(0x8, x, y, 0x5); DecodeComposed(0x8, x, y, 0x5);
    case ShrReg(x, y) => assert Encode(ins) == Compose(0x8, x, y, 0x6); DecodeComposed(0x8, x, y, 0x6);
    case SubnReg(x, y) => assert Encode(ins) == Compose(0x8, x, y, 0x7); DecodeComposed(0x8, x, y, 0x7);
    case ShlReg(x, y) => assert Encode(ins) == Compose(0x8, x, y, 0xE); DecodeComposed(0x8, x, y, 0xE);
  }

  /** Decoding a word built from nibbles dispatches on exactly those nibbles. */
  lemma DecodeComposed(c: nibble, x: nibble, y: nibble, d: nibble)
    ensures var op := Compose(c, x, y, d); Decode(op) == Dispatch(c, x, y, d, Nnn(op), Kk(op), op)
  {
  }
}
