/** Fixed-width unsigned integers and the bit-level operations the interpreter
    uses on them, with Rust's `u8` semantics written out over `int`. */
module Bits {

  /** Rust `u8`. */
  type byte = b: int | 0 <= b < 0x100
  /** Rust `u16`. */
  type word = w: int | 0 <= w < 0x1_0000
  /** A 4-bit field of an opcode. */
  type nibble = n: int | 0 <= n < 0x10
  /** The 12-bit address operand `nnn` of an opcode. */
  type address = a: int | 0 <= a < 0x1000

  function Pow2(n: nat): (r: nat)
    ensures r >= 1
  {
    if n == 0 then 1 else 2 * Pow2(n - 1)
  }

  /** Bit `j` of `v`, counted from the least significant bit: `(v >> j) & 1 == 1`. */
  predicate Bit(v: nat, j: nat)
  {
    if j == 0 then v % 2 == 1 else Bit(v / 2, j - 1)
  }

  datatype BitOp = Or | And | Xor

  function Apply(op: BitOp, p: bool, q: bool): bool
  {
    match op
    case Or => p || q
    case And => p && q
    case Xor => p != q
  }

  /** The low `width` bits of `a op b`, built one bit at a time from the least
      significant end. */
  function Bitwise(op: BitOp, a: nat, b: nat, width: nat): (r: nat)
    ensures r < Pow2(width)
    ensures forall j :: 0 <= j < width ==> Bit(r, j) == Apply(op, Bit(a, j), Bit(b, j))
  {
    if width == 0 then 0
    else
      var high := Bitwise(op, a / 2, b / 2, width - 1);
      var low := if Apply(op, a % 2 == 1, b % 2 == 1) then 1 else 0;
      2 * high + low
  }

  /** Rust `a | b` on `u8`. */
  function BitOr(a: byte, b: byte): (r: byte)
    ensures forall j :: 0 <= j < 8 ==> Bit(r, j) == (Bit(a, j) || Bit(b, j))
  {
    assert Pow2(8) == 0x100;
    Bitwise(Or, a, b, 8)
  }

  /** Rust `a & b` on `u8`. */
  function BitAnd(a: byte, b: byte): (r: byte)
    ensures forall j :: 0 <= j < 8 ==> Bit(r, j) == (Bit(a, j) && Bit(b, j))
    ensures r <= a && r <= b
  {
    assert Pow2(8) == 0x100;
    AndBelow(a, b, 8);
    AndBelow(b, a, 8);
    AndCommutes(a, b, 8);
    Bitwise(And, a, b, 8)
  }

  /** Rust `a ^ b` on `u8`. */
  function BitXor(a: byte, b: byte): (r: byte)
    ensures forall j :: 0 <= j < 8 ==> Bit(r, j) == (Bit(a, j) != Bit(b, j))
  {
    assert Pow2(8) == 0x100;
    Bitwise(Xor, a, b, 8)
  }

  /** Masking never yields more than the mask. */
  lemma {:induction false} AndBelow(a: nat, b: nat, width: nat)
    ensures Bitwise(And, a, b, width) <= b
  {
    if width > 0 {
      AndBelow(a / 2, b / 2, width - 1);
    }
  }

  lemma {:induction false} AndCommutes(a: nat, b: nat, width: nat)
    ensures Bitwise(And, a, b, width) == Bitwise(And, b, a, width)
  {
    if width > 0 {
      AndCommutes(a / 2, b / 2, width - 1);
    }
  }

  /** A number below 2^width is determined by its low `width` bits. */
  lemma {:induction false} BitsDetermine(a: nat, b: nat, width: nat)
    requires a < Pow2(width) && b < Pow2(width)
    requires forall j :: 0 <= j < width ==> Bit(a, j) == Bit(b, j)
    ensures a == b
  {
    if width > 0 {
      forall j | 0 <= j < width - 1
        ensures Bit(a / 2, j) == Bit(b / 2, j)
      {
        assert Bit(a, j + 1) == Bit(b, j + 1);
      }
      BitsDetermine(a / 2, b / 2, width - 1);
      assert Bit(a, 0) == Bit(b, 0);
    }
  }

  /** XOR with the same byte twice is the identity. */
  lemma XorInvolutive(a: byte, b: byte)
    ensures BitXor(BitXor(a, b), b) == a
  {
    assert Pow2(8) == 0x100;
    BitsDetermine(BitXor(BitXor(a, b), b), a, 8);
  }

  /** Rust `u8::overflowing_add`: the sum modulo 256 and whether it wrapped. */
  function OverflowingAdd(a: byte, b: byte): (r: (byte, bool))
    ensures r.0 + (if r.1 then 0x100 else 0) == a + b
  {
    ((a + b) % 0x100, a + b >= 0x100)
  }

  /** Rust `u8::overflowing_sub`: the difference modulo 256 and whether it borrowed. */
  function OverflowingSub(a: byte, b: byte): (r: (byte, bool))
    ensures r.0 - (if r.1 then 0x100 else 0) == a - b
  {
    ((a - b) % 0x100, b > a)
  }

  /** `a + b` on `u8` as a release build computes it (a debug build panics on overflow). */
  function WrappingAdd8(a: byte, b: byte): (r: byte)
    ensures r == a + b || r == a + b - 0x100
  {
    (a + b) % 0x100
  }

  /** `a + b` on `u16` as a release build computes it (a debug build panics on overflow). */
  function WrappingAdd16(a: word, b: word): (r: word)
    ensures r == a + b || r == a + b - 0x1_0000
  {
    (a + b) % 0x1_0000
  }
}
