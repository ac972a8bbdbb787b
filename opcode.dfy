/** Fetching and decoding 16-bit instruction words. */
module Opcode {
  import opened Bits
  import opened Faults

  /** `decompose_opcode`: the four nibbles of `op`, most significant first. */
  function Decompose(op: word): (r: (nibble, nibble, nibble, nibble))
    ensures 0x1000 * r.0 + 0x100 * r.1 + 0x10 * r.2 + r.3 == op
  {
    assert op % 0x100 == 0x10 * ((op / 0x10) % 0x10) + op % 0x10;
    assert op % 0x1000 == 0x100 * ((op / 0x100) % 0x10) + op % 0x100;
    (op / 0x1000, (op / 0x100) % 0x10, (op / 0x10) % 0x10, op % 0x10)
  }

  /** The opcode whose nibbles are `c`, `x`, `y`, `d`. */
  function Compose(c: nibble, x: nibble, y: nibble, d: nibble): (op: word)
    ensures Decompose(op) == (c, x, y, d)
  {
    var op := 0x1000 * c + 0x100 * x + 0x10 * y + d;
    assert op / 0x10 == 0x100 * c + 0x10 * x + y && op % 0x10 == d;
    assert op / 0x100 == 0x10 * c + x;
    assert op / 0x1000 == c;
    op
  }

  /** `op & 0x0FFF`: the low three nibbles. */
  function Nnn(op: word): (a: address)
    ensures var (_, x, y, d) := Decompose(op); a == 0x100 * x + 0x10 * y + d
  {
    op % 0x1000
  }

  /** `(op & 0x00FF) as u8`: the low two nibbles. */
  function Kk(op: word): (b: byte)
    ensures var (_, _, y, d) := Decompose(op); b == 0x10 * y + d
  {
    op % 0x100
  }

  /** `read_opcode`: the big-endian word at `pc`. Indexing `memory[pc]` or
      `memory[pc + 1]` past the end panics. */
  function ReadOpcode(memory: seq<byte>, pc: nat): (r: Result<word>)
    ensures r.Ok? <==> pc + 1 < |memory|
    ensures r.Err? ==> r.fault == IndexOutOfBounds
    ensures r.Ok? ==> r.value / 0x100 == memory[pc] && r.value % 0x100 == memory[pc + 1]
  {
    if pc + 1 < |memory| then Ok(memory[pc] as int * 0x100 + memory[pc + 1]) else Err(IndexOutOfBounds)
  }

  /** The instructions of the dispatch table, named by their usual CHIP-8 mnemonics. */
  datatype Instruction =
    | Halt                      // 0000
    | Cls                       // 00E0
    | Rts                       // 00EE
    | Jp(nnn: address)          // 1nnn
    | CallSub(nnn: address)     // 2nnn
    | SeImm(x: nibble, kk: byte)   // 3xkk
    | SneImm(x: nibble, kk: byte)  // 4xkk
    | SeReg(x: nibble, y: nibble)  // 5xy0
    | LdImm(x: nibble, kk: byte)   // 6xkk
    | AddImm(x: nibble, kk: byte)  // 7xkk
    | LdReg(x: nibble, y: nibble)  // 8xy0
    | OrReg(x: nibble, y: nibble)  // 8xy1
    | AndReg(x: nibble, y: nibble) // 8xy2
    | XorReg(x: nibble, y: nibble) // 8xy3
    | AddReg(x: nibble, y: nibble) // 8xy4
    | SubReg(x: nibble, y: nibble) // 8xy5
    | ShrReg(x: nibble, y: nibble) // 8xy6 (y is ignored)
    | SubnReg(x: nibble, y: nibble) // 8xy7
    | ShlReg(x: nibble, y: nibble) // 8xyE (y is ignored)
    | SneReg(x: nibble, y: nibble) // 9xy0
    | LdI(nnn: address)         // Annn
    | JpV0(nnn: address)        // Bnnn
    | Rnd(x: nibble, kk: byte)  // Cxkk
    | Drw(x: nibble, y: nibble, n: nibble) // Dxyn
    | AddI(x: nibble)           // Fx1E
    | LdFont(x: nibble)         // Fx29
    | LdBcd(x: nibble)          // Fx33
    | StoreRegs(x: nibble)      // Fx55
    | LoadRegs(x: nibble)       // Fx65
    | Unknown(opcode: word)     // anything else: `todo!`

  /** The dispatch `match (c, x, y, d)` of the interpreter loop, first matching arm wins. */
  function Decode(op: word): (ins: Instruction)
    ensures ins.Unknown? ==> ins.opcode == op
  {
    var (c, x, y, d) := Decompose(op);
    Dispatch(c, x, y, d, Nnn(op), Kk(op), op)
  }

  /** The arms of the dispatch, given the opcode's fields, grouped by the high
      nibble (arms with different high nibbles never overlap, so the first
      matching arm is the same as in the flat table). */
  function Dispatch(c: nibble, x: nibble, y: nibble, d: nibble, nnn: address, kk: byte, op: word): (ins: Instruction)
    ensures ins.Unknown? ==> ins.opcode == op
  {
    match c
    case 0x0 =>
      if x == 0x0 && y == 0x0 && d == 0x0 then Halt
      else if x == 0x0 && y == 0xE && d == 0x0 then Cls
      else if x == 0x0 && y == 0xE && d == 0xE then Rts
      else Unknown(op)
    case 0x1 => Jp(nnn)
    case 0x2 => CallSub(nnn)
    case 0x3 => SeImm(x, kk)
    case 0x4 => SneImm(x, kk)
    case 0x5 => if d == 0x0 then SeReg(x, y) else Unknown(op)
    case 0x6 => LdImm(x, kk)
    case 0x7 => AddImm(x, kk)
    case 0x8 =>
      (match d
       case 0x0 => LdReg(x, y)
       case 0x1 => OrReg(x, y)
       case 0x2 => AndReg(x, y)
       case 0x3 => XorReg(x, y)
       case 0x4 => AddReg(x, y)
       case 0x5 => SubReg(x, y)
       case 0x6 => ShrReg(x, y)
       case 0x7 => SubnReg(x, y)
       case 0xE => ShlReg(x, y)
       case _ => Unknown(op))
    case 0x9 => if d == 0x0 then SneReg(x, y) else Unknown(op)
    case 0xA => LdI(nnn)
    case 0xB => JpV0(nnn)
    case 0xC => Rnd(x, kk)
    case 0xD => Drw(x, y, d)
    case 0xF =>
      if y == 0x1 && d == 0xE then AddI(x)
      else if y == 0x2 && d == 0x9 then LdFont(x)
      else if y == 0x3 && d == 0x3 then LdBcd(x)
      else if y == 0x5 && d == 0x5 then StoreRegs(x)
      else if y == 0x6 && d == 0x5 then LoadRegs(x)
      else Unknown(op)
    case _ => Unknown(op)
  }

  lemma SplitAddress(c: nibble, nnn: address)
    ensures Decompose(0x1000 * c + nnn).0 == c && Nnn(0x1000 * c + nnn) == nnn
  {
  }

  lemma SplitImmediate(c: nibble, x: nibble, kk: byte)
    ensures var op := 0x1000 * c + 0x100 * x + kk;
      Decompose(op).0 == c && Decompose(op).1 == x && Kk(op) == kk
  {
  }
}
