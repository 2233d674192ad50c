/** The machine's only data type and the arithmetic of its operators (vm.c:394-465). */
module Bytes {
  import opened Wrappers

  type byte = x: int | 0 <= x < 256

  /** What comparisons and `!` yield for a true result. */
  const TRUE: byte := 0xFF

  /** The operators that `tick` applies to the two topmost stack elements. */
  datatype BinOp =
    | LOr | LAnd | Or | Xor | And | Eql | Lss | Lte
    | Shl | Shr | Add | Sub | Mul | Div | Mod

  function Truth(b: bool): byte {
    if b then TRUE else 0
  }

  function Negate(x: byte): byte {
    (256 - x as int) % 256
  }

  function LogicalNot(x: byte): byte {
    if x != 0 then 0 else TRUE
  }

  function Complement(x: byte): byte {
    255 - x
  }

  function Pow2(n: nat): nat {
    if n == 0 then 1 else 2 * Pow2(n - 1)
  }

  /** The number whose `n` lowest bits are `f` of the bits of `x` and `y`. */
  function Bitwise(f: (bool, bool) -> bool, x: nat, y: nat, n: nat): (r: nat)
    ensures r < Pow2(n)
  {
    if n == 0 then 0
    else 2 * Bitwise(f, x / 2, y / 2, n - 1) + if f(x % 2 == 1, y % 2 == 1) then 1 else 0
  }

  function BitOr(x: byte, y: byte): byte {
    assert Pow2(8) == 256;
    Bitwise((a, b) => a || b, x, y, 8)
  }

  function BitXor(x: byte, y: byte): byte {
    assert Pow2(8) == 256;
    Bitwise((a, b) => a != b, x, y, 8)
  }

  function BitAnd(x: byte, y: byte): byte {
    assert Pow2(8) == 256;
    Bitwise((a, b) => a && b, x, y, 8)
  }

  /** `x op y`, or None where section 6.5.5 or 6.5.7 of ISO C99 leaves the C expression undefined:
      division by zero, a shift count of 32 or more, and a left shift whose result does not fit a
      32-bit int. */
  function Apply(op: BinOp, x: byte, y: byte): Option<byte> {
    match op
    case LOr => Some(if x != 0 then x else y)
    case LAnd => Some(if x != 0 then y else 0)
    case Or => Some(BitOr(x, y))
    case Xor => Some(BitXor(x, y))
    case And => Some(BitAnd(x, y))
    case Eql => Some(Truth(x == y))
    case Lss => Some(Truth(x < y))
    case Lte => Some(Truth(x <= y))
    case Shl => if y < 32 && x * Pow2(y) <= 0x7FFF_FFFF then Some((x * Pow2(y)) % 256) else None
    case Shr => if y < 32 then Some(ShiftRight(x, y)) else None
    case Add => Some((x + y) % 256)
    case Sub => Some((x - y) % 256)
    case Mul => Some((x * y) % 256)
    case Div => if y == 0 then None else Some(Quotient(x, y))
    case Mod => if y == 0 then None else Some(x % y)
  }

  /** `x >> n` on a nonnegative int: n halvings. */
  function ShiftRight(x: byte, n: nat): byte {
    if n == 0 then x else ShiftRight(x / 2, n - 1)
  }

  function Quotient(x: byte, y: byte): (q: byte)
    requires y != 0
    ensures q * y <= x < (q + 1) * y
  {
    QuotientBound(x, y);
    x / y
  }

  lemma QuotientBound(x: byte, y: byte)
    requires y != 0
    ensures 0 <= x / y < 256
    ensures (x / y) * y <= x < (x / y + 1) * y
  {
    var q := x / y;
    assert x == q * y + x % y;
    assert q >= 256 ==> q * y >= 256 * y;
  }

  lemma Pow2Monotone(m: nat, n: nat)
    requires m <= n
    ensures 1 <= Pow2(m) <= Pow2(n)
  {
    if n > 0 {
      if m < n {
        Pow2Monotone(m, n - 1);
      } else {
        Pow2Monotone(m - 1, n - 1);
      }
    }
  }

  /** Shift counts below 24 are defined for every left operand, and 24 is not: 255 << 24 does not
      fit a 32-bit int. */
  lemma ShiftsBelow24(x: byte, y: byte)
    requires y < 24
    ensures Apply(Shl, x, y).Some? && Apply(Shr, x, y).Some?
    ensures Apply(Shl, 255, 24).None?
  {
    assert Pow2(23) == 0x80_0000 && Pow2(24) == 0x100_0000 by {
      assert Pow2(8) == 256;
      assert Pow2(16) == 65536;
    }
    Pow2Monotone(y, 23);
    assert x * Pow2(y) <= 255 * 0x80_0000 by {
      ProductBound(x, 255, Pow2(y), 0x80_0000);
    }
  }

  lemma ProductBound(a: nat, b: nat, c: nat, d: nat)
    requires a <= b && c <= d
    ensures a * c <= b * d
  {
    assert a * c <= b * c <= b * d;
  }
}
