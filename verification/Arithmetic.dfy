/** The integer operators of C, on unbounded integers. */
module Arithmetic {
  import opened Ast

  const WIDTH := 64

  function Truth(b: bool): int {
    if b then 1 else 0
  }

  function Magnitude(i: int): nat {
    if i < 0 then -i else i
  }

  /** Division truncates toward zero, and the remainder has the sign of the dividend. */
  function Quotient(a: int, b: int): int
    requires b != 0
  {
    var q := Magnitude(a) / Magnitude(b);
    if (a < 0) == (b < 0) then q else -q
  }

  function Remainder(a: int, b: int): int
    requires b != 0
  {
    if a < 0 then -(Magnitude(a) % Magnitude(b)) else Magnitude(a) % Magnitude(b)
  }

  function Pow2(n: nat): (p: nat)
    ensures p > 0
  {
    if n == 0 then 1 else 2 * Pow2(n - 1)
  }

  /** All bits of a number that is 0 or -1 are the same. */
  predicate IsUniform(a: int) {
    a == 0 || a == -1
  }

  /** `bit` applied to each two's complement bit of `a` and `b`. */
  function Bitwise(bit: (int, int) -> int, a: int, b: int): int
    decreases Magnitude(2 * a + 1) + Magnitude(2 * b + 1)
  {
    if IsUniform(a) && IsUniform(b) then -bit(-a, -b)
    else bit(a % 2, b % 2) + 2 * Bitwise(bit, a / 2, b / 2)
  }

  function BothBits(p: int, q: int): int {
    if p == 1 then q else 0
  }

  function EitherBit(p: int, q: int): int {
    if p == 1 then 1 else q
  }

  function DifferentBits(p: int, q: int): int {
    if p == q then 0 else 1
  }

  /** Both operands are there; None is a division by zero, or an assignment. */
  function Compute(op: BinOp, a: int, b: int): Option<int> {
    match op
    case Add => Some(a + b)
    case Sub => Some(a - b)
    case Mul => Some(a * b)
    case Div => if b == 0 then None else Some(Quotient(a, b))
    case Mod => if b == 0 then None else Some(Remainder(a, b))
    case Shl => Some(a * Pow2(b % WIDTH))
    case Shr => Some(a / Pow2(b % WIDTH))
    case BitAnd => Some(Bitwise(BothBits, a, b))
    case BitOr => Some(Bitwise(EitherBit, a, b))
    case BitXor => Some(Bitwise(DifferentBits, a, b))
    case Eq => Some(Truth(a == b))
    case Ne => Some(Truth(a != b))
    case Lt => Some(Truth(a < b))
    case Gt => Some(Truth(a > b))
    case Le => Some(Truth(a <= b))
    case Ge => Some(Truth(a >= b))
    case And => Some(Truth(a != 0 && b != 0))
    case Or => Some(Truth(a != 0 || b != 0))
    case _ => None
  }
}
