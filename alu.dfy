/** The instructions that only touch the sixteen byte registers V0..VF. Each
    function takes the register file before the instruction and returns it
    after; VF (index 15) doubles as the carry, borrow and shifted-out flag. The
    additions and subtractions (8xy4, 8xy5, 8xy7) write VF after the result
    register, so the flag wins when x is 15; the shifts (8xy6, 8xyE) write VF
    first, so there the shifted value wins. */
module Alu {
  import opened Bits

  /** `registers: [u8; 16]`. */
  type RegisterFile = v: seq<byte> | |v| == 16 witness seq(16, _ => 0)

  /** Register index of the flag register VF. */
  const VF: nibble := 0xF

  /** `load_in_register` (6xkk): Vx := kk. The source's index check on x can never
      fire, because x is a nibble. */
  function LoadInRegister(v: RegisterFile, x: nibble, kk: byte): (r: RegisterFile)
    ensures r[x] == kk
    ensures forall k :: 0 <= k < 16 && k != x ==> r[k] == v[k]
  {
    v[x := kk]
  }

  /** `add_constant` (7xkk): Vx += kk with the sum taken modulo 256; VF is not a
      carry here. */
  function AddConstant(v: RegisterFile, x: nibble, kk: byte): (r: RegisterFile)
    ensures (r[x] - v[x] - kk) % 0x100 == 0
    ensures forall k :: 0 <= k < 16 && k != x ==> r[k] == v[k]
  {
    v[x := WrappingAdd8(v[x], kk)]
  }

  /** `copy_second_to_first` (8xy0): Vx := Vy. */
  function CopySecondToFirst(v: RegisterFile, x: nibble, y: nibble): (r: RegisterFile)
    ensures r[x] == v[y]
    ensures forall k :: 0 <= k < 16 && k != x ==> r[k] == v[k]
  {
    v[x := v[y]]
  }

  /** `or` (8xy1): Vx |= Vy, bit by bit. */
  function Or(v: RegisterFile, x: nibble, y: nibble): (r: RegisterFile)
    ensures forall j :: 0 <= j < 8 ==> Bit(r[x], j) == (Bit(v[x], j) || Bit(v[y], j))
    ensures forall k :: 0 <= k < 16 && k != x ==> r[k] == v[k]
  {
    v[x := BitOr(v[x], v[y])]
  }

  /** `and` (8xy2): Vx &= Vy, bit by bit. */
  function And(v: RegisterFile, x: nibble, y: nibble): (r: RegisterFile)
    ensures forall j :: 0 <= j < 8 ==> Bit(r[x], j) == (Bit(v[x], j) && Bit(v[y], j))
    ensures forall k :: 0 <= k < 16 && k != x ==> r[k] == v[k]
  {
    v[x := BitAnd(v[x], v[y])]
  }

  /** `xor` (8xy3): Vx ^= Vy, bit by bit. */
  function Xor(v: RegisterFile, x: nibble, y: nibble): (r: RegisterFile)
    ensures forall j :: 0 <= j < 8 ==> Bit(r[x], j) == (Bit(v[x], j) != Bit(v[y], j))
    ensures forall k :: 0 <= k < 16 && k != x ==> r[k] == v[k]
  {
    v[x := BitXor(v[x], v[y])]
  }

  /** `add_registers` (8xy4): Vx := Vx + Vy modulo 256, then VF := carry. When x
      is not VF the pair (VF, Vx) holds the full 9-bit sum. */
  function AddRegisters(v: RegisterFile, x: nibble, y: nibble): (r: RegisterFile)
    ensures r[VF] == if v[x] as int + v[y] >= 0x100 then 1 else 0
    ensures x != VF ==> r[x] as int + 0x100 * r[VF] as int == v[x] as int + v[y]
    ensures forall k :: 0 <= k < 16 && k != x && k != VF ==> r[k] == v[k]
  {
    var (value, overflow) := OverflowingAdd(v[x], v[y]);
    v[x := value][VF := if overflow then 1 else 0]
  }

  /** `sub_registers` (8xy5): Vx := Vx - Vy modulo 256, then VF := 1 exactly when
      the subtraction borrowed (Vy > Vx). */
  function SubRegisters(v: RegisterFile, x: nibble, y: nibble): (r: RegisterFile)
    ensures r[VF] == if v[y] > v[x] then 1 else 0
    ensures x != VF ==> r[x] as int - 0x100 * r[VF] as int == v[x] as int - v[y]
    ensures forall k :: 0 <= k < 16 && k != x && k != VF ==> r[k] == v[k]
  {
    var (value, borrow) := OverflowingSub(v[x], v[y]);
    v[x := value][VF := if borrow then 1 else 0]
  }

  /** `sub_registers_swapped` (8xy7): Vx := Vy - Vx modulo 256, then VF := 1
      exactly when the subtraction borrowed (Vx > Vy). */
  function SubRegistersSwapped(v: RegisterFile, x: nibble, y: nibble): (r: RegisterFile)
    ensures r[VF] == if v[x] > v[y] then 1 else 0
    ensures x != VF ==> r[x] as int - 0x100 * r[VF] as int == v[y] as int - v[x]
    ensures forall k :: 0 <= k < 16 && k != x && k != VF ==> r[k] == v[k]
  {
    var (value, borrow) := OverflowingSub(v[y], v[x]);
    v[x := value][VF := if borrow then 1 else 0]
  }

  /** `shift_right` (8xy6): VF := the low bit of Vx, THEN Vx >>= 1. Because the
      shift reads Vx again after VF was written, shifting VF itself leaves 0. */
  function ShiftRight(v: RegisterFile, x: nibble): (r: RegisterFile)
    ensures x != VF ==> 2 * r[x] as int + r[VF] == v[x] && r[VF] <= 1
    ensures x != VF ==> forall j :: 0 <= j < 7 ==> Bit(r[x], j) == Bit(v[x], j + 1)
    ensures x == VF ==> r[VF] == 0
    ensures forall k :: 0 <= k < 16 && k != x && k != VF ==> r[k] == v[k]
  {
    var flagged := v[VF := v[x] % 2];
    flagged[x := flagged[x] / 2]
  }

  /** `shift_left` (8xyE): VF := the high bit of Vx, THEN Vx <<= 1 (the bit
      shifted out is lost). Shifting VF itself leaves twice its high bit. */
  function ShiftLeft(v: RegisterFile, x: nibble): (r: RegisterFile)
    ensures x != VF ==> r[x] as int + 0x100 * r[VF] as int == 2 * v[x] as int && r[VF] <= 1
    ensures x == VF ==> r[VF] == 2 * (v[x] / 0x80)
    ensures forall k :: 0 <= k < 16 && k != x && k != VF ==> r[k] == v[k]
  {
    var flagged := v[VF := v[x] / 0x80];
    flagged[x := (2 * flagged[x] as int) % 0x100]
  }

  /** `random_and_constant_in` (Cxkk): Vx := r & kk, where `r` is the byte the
      source draws from `rand::thread_rng`, passed in here. */
  function RandomAndConstantIn(v: RegisterFile, x: nibble, kk: byte, random: byte): (r: RegisterFile)
    ensures forall j :: 0 <= j < 8 ==> Bit(r[x], j) == (Bit(random, j) && Bit(kk, j))
    ensures r[x] <= kk
    ensures forall k :: 0 <= k < 16 && k != x ==> r[k] == v[k]
  {
    v[x := BitAnd(random, kk)]
  }

  /** 8xy4 then 8xy5 with the same operands gives Vx back, and the borrow of the
      subtraction equals the carry of the addition. */
  lemma AddThenSubtract(v: RegisterFile, x: nibble, y: nibble)
    requires x != VF && y != VF && x != y
    ensures SubRegisters(AddRegisters(v, x, y), x, y) == AddRegisters(v, x, y)[x := v[x]]
  {
    var added := AddRegisters(v, x, y);
    var back := SubRegisters(added, x, y);
    assert back[x] == v[x];
    assert back[VF] == added[VF];
  }

  /** 8xyE then 8xy6 gives Vx back without its high bit, which the left shift
      lost; VF ends as the bit the right shift dropped, which is 0. */
  lemma ShiftLeftThenRight(v: RegisterFile, x: nibble)
    requires x != VF
    ensures ShiftRight(ShiftLeft(v, x), x)[x] == v[x] % 0x80
    ensures ShiftRight(ShiftLeft(v, x), x)[VF] == 0
  {
  }

  /** 8xy3 twice with the same operands restores the register file. */
  lemma XorTwice(v: RegisterFile, x: nibble, y: nibble)
    requires x != y
    ensures Xor(Xor(v, x, y), x, y) == v
  {
    XorInvolutive(v[x], v[y]);
    assert Xor(Xor(v, x, y), x, y)[x] == v[x];
  }
}
