/** What the integer operators of the folder and of the interpreter compute, by the laws that
    determine them: section 6.5.5 of C11 for division, equations for sums, products and shifts,
    the sign of the difference for comparisons, and single bits for the rest. */
module ArithmeticLaws {
  import opened Ast
  import opened Arithmetic
  import opened ConstFold
  import ComptimeSpec

  // ---------- division (section 6.5.5 of C11) ----------

  /** `q` is the quotient with the fraction discarded and `m` the remainder that goes with it. */
  predicate Truncated(a: int, b: int, q: int, m: int)
    requires b != 0
  {
    && q * b + m == a && Magnitude(m) < Magnitude(b)
    && (m != 0 ==> (m < 0 <==> a < 0))
    && (q != 0 ==> (q < 0 <==> (a < 0) != (b < 0)))
  }

  /** There is only one such pair. */
  lemma TruncatedUnique(a: int, b: int, q: int, m: int, q': int, m': int)
    requires b != 0 && Truncated(a, b, q, m) && Truncated(a, b, q', m')
    ensures q == q' && m == m'
  {
    assert (q - q') * b == m' - m && (q' - q) * b == m - m';
    assert q == q' by {
      if q > q' { SignedMultiple(q - q', b); }
      if q < q' { SignedMultiple(q' - q, b); }
    }
  }

  lemma SignedMultiple(k: int, b: int)
    requires k > 0
    ensures Magnitude(k * b) >= Magnitude(b)
  {
  }

  lemma QuotientIsTruncated(a: int, b: int)
    requires b != 0
    ensures Truncated(a, b, Quotient(a, b), Remainder(a, b))
  {
    var m, n := Magnitude(a), Magnitude(b);
    var q, r := m / n, m % n;
    assert q * n + r == m && 0 <= r < n;
    SignedProducts(q, n);
    SignsOfDivision(a, b, q, r, Quotient(a, b), Remainder(a, b));
  }

  lemma SignsOfDivision(a: int, b: int, q: int, r: int, q': int, r': int)
    requires b != 0 && q * Magnitude(b) + r == Magnitude(a) && 0 <= r < Magnitude(b) && 0 <= q
    requires q' == (if (a < 0) == (b < 0) then q else -q) && r' == if a < 0 then -r else r
    ensures Truncated(a, b, q', r')
  {
    var n := Magnitude(b);
    SignedProducts(q, n);
    assert q' * b == if a < 0 then -(q * n) else q * n;
  }

  lemma SignedProducts(q: int, n: int)
    ensures (-q) * n == -(q * n) && q * (-n) == -(q * n) && (-q) * (-n) == q * n
  {
  }

  /** `/` and `%` of the folder, on every pair of operands. */
  lemma FoldedDivision(l: Expr, r: Expr, consts: Consts)
    requires Fold(l, consts).Some? && Fold(r, consts).Some? && Fold(r, consts).value != 0
    ensures var q, m := Fold(Binary(Div, l, r), consts), Fold(Binary(Mod, l, r), consts);
      q.Some? && m.Some? && Truncated(Fold(l, consts).value, Fold(r, consts).value, q.value, m.value)
  {
    QuotientIsTruncated(Fold(l, consts).value, Fold(r, consts).value);
  }

  /** `/` and `%` of the interpreter. */
  lemma InterpretedDivision(a: int, b: int)
    requires b != 0
    ensures var x, y := ComptimeSpec.Int(a), ComptimeSpec.Int(b);
      var q, m := ComptimeSpec.Operate(Div, x, y), ComptimeSpec.Operate(Mod, x, y);
      q.Some? && m.Some? && q.value.Int? && m.value.Int? && Truncated(a, b, q.value.i, m.value.i)
  {
    QuotientIsTruncated(a, b);
  }

  // ---------- sums, products and comparisons ----------

  function Value(op: BinOp, a: int, b: int): int
    requires Compute(op, a, b).Some?
  {
    Compute(op, a, b).value
  }

  /** The equations that determine sum, difference and product. */
  lemma RingLaws(a: int, b: int)
    ensures Value(Add, a, 0) == a && Value(Add, a, b + 1) == Value(Add, a, b) + 1
    ensures Value(Sub, Value(Add, a, b), b) == a && Value(Add, Value(Sub, a, b), b) == a
    ensures Value(Mul, a, 0) == 0 && Value(Mul, a, b + 1) == Value(Add, Value(Mul, a, b), a)
  {
    assert a * (b + 1) == a * b + a;
  }

  /** Two operands are compared by the sign of their difference. */
  lemma ComparisonLaws(a: int, b: int)
    ensures var d := Value(Sub, b, a);
      && (Value(Lt, a, b) == 1 <==> d > 0) && (Value(Gt, a, b) == 1 <==> d < 0) && (Value(Eq, a, b) == 1 <==> d == 0)
      && Value(Le, a, b) == 1 - Value(Gt, a, b) && Value(Ge, a, b) == 1 - Value(Lt, a, b) && Value(Ne, a, b) == 1 - Value(Eq, a, b)
      && Value(Lt, a, b) + Value(Eq, a, b) + Value(Gt, a, b) == 1
  {
  }

  /** Of operands that are 0 or 1 the logical operators are the product and the complement of the
      product of the complements; any other operand counts as 1. */
  lemma LogicalLaws(a: int, b: int)
    ensures var p, q := Value(Ne, a, 0), Value(Ne, b, 0);
      Value(And, a, b) == Value(Mul, p, q) && Value(Or, a, b) == 1 - Value(Mul, 1 - p, 1 - q)
  {
  }

  /** Negation is the additive inverse, `!` tells zero from the rest, and `~` flips every bit. */
  lemma UnaryLaws(a: int)
    ensures FoldUnary(Neg, a).Some? && FoldUnary(Neg, a).value + a == 0
    ensures FoldUnary(Not, a) == Some(Value(Eq, a, 0)) && FoldUnary(Plus, a) == Some(a)
    ensures FoldUnary(BitNot, a).Some? && FoldUnary(BitNot, a).value + a == -1
    ensures forall i: nat :: Bit(FoldUnary(BitNot, a).value, i) == 1 - Bit(a, i)
  {
    forall i: nat ensures Bit(-a - 1, i) == 1 - Bit(a, i) {
      FlippedBit(a, i);
    }
  }

  // ---------- shifts ----------

  /** The equations that determine both shifts. */
  lemma ShiftLaws(a: int, n: nat)
    requires n + 1 < WIDTH
    ensures Value(Shl, a, 0) == a && Value(Shl, a, n + 1) == 2 * Value(Shl, a, n)
    ensures Value(Shr, a, 0) == a && 2 * Value(Shr, a, n + 1) <= Value(Shr, a, n) <= 2 * Value(Shr, a, n + 1) + 1
  {
    ShiftedLeft(a, 0);
    ShiftedLeft(a, n);
    ShiftedLeft(a, n + 1);
    assert a * (2 * Pow2(n)) == 2 * (a * Pow2(n));
    ShiftedRight(a, 0);
    ShiftedRight(a, n);
    ShiftedRight(a, n + 1);
    HalvedQuotient(a, Pow2(n));
  }

  lemma ShiftedLeft(a: int, n: nat)
    requires n < WIDTH
    ensures Compute(Shl, a, n) == Some(a * Pow2(n))
  {
    assert n % WIDTH == n;
  }

  lemma ShiftedRight(a: int, n: nat)
    requires n < WIDTH
    ensures Compute(Shr, a, n) == Some(a / Pow2(n))
  {
    assert n % WIDTH == n;
  }

  lemma HalvedQuotient(a: int, p: int)
    requires p > 0
    ensures a / (2 * p) == (a / p) / 2
  {
    var q := a / p;
    assert a == q * p + a % p;
    var h := q / 2;
    assert q == 2 * h + q % 2;
    var r := (q % 2) * p + a % p;
    assert 2 * h * p == h * (2 * p);
    assert a == h * (2 * p) + r;
    assert 0 <= r < 2 * p by {
      if q % 2 == 1 {
        assert r == p + a % p;
      } else {
        assert r == a % p;
      }
    }
    UniqueQuotient(a, 2 * p, h, r);
  }

  lemma UniqueQuotient(a: int, d: int, h: int, r: int)
    requires d > 0 && a == h * d + r && 0 <= r < d
    ensures a / d == h
  {
    var q, m := a / d, a % d;
    assert a == q * d + m && 0 <= m < d;
    assert (q - h) * d == r - m && (h - q) * d == m - r;
    assert q == h by {
      if q > h { SignedMultiple(q - h, d); }
      if q < h { SignedMultiple(h - q, d); }
    }
  }

  // ---------- bits ----------

  /** Bit `i` of the two's complement representation. */
  function Bit(a: int, i: nat): (b: int)
    ensures b == 0 || b == 1
  {
    (a / Pow2(i)) % 2
  }

  lemma NextBit(a: int, i: nat)
    ensures Bit(a, i + 1) == Bit(a / 2, i)
  {
    QuotientInTurn(a, Pow2(i));
  }

  lemma QuotientInTurn(a: int, p: int)
    requires p > 0
    ensures a / (2 * p) == (a / 2) / p
  {
    var h := a / 2;
    var q, m := h / p, h % p;
    assert h == q * p + m;
    var r := 2 * m + a % 2;
    assert 2 * (q * p) == q * (2 * p);
    assert a == q * (2 * p) + r;
    UniqueQuotient(a, 2 * p, q, r);
  }

  lemma {:induction false} FlippedBit(a: int, i: nat)
    ensures Bit(-a - 1, i) == 1 - Bit(a, i)
    decreases i
  {
    if i > 0 {
      assert (-a - 1) / 2 == -(a / 2) - 1;
      NextBit(a, i - 1);
      NextBit(-a - 1, i - 1);
      FlippedBit(a / 2, i - 1);
    }
  }

  /** A number is determined by its bits. */
  lemma {:induction false} BitsDetermine(a: int, b: int)
    requires forall i: nat :: Bit(a, i) == Bit(b, i)
    ensures a == b
    decreases Magnitude(2 * a + 1) + Magnitude(2 * b + 1)
  {
    assert Bit(a, 0) == a % 2 && Bit(b, 0) == b % 2 by { assert Pow2(0) == 1 && a / 1 == a && b / 1 == b; }
    if !IsUniform(a) || !IsUniform(b) {
      forall i: nat ensures Bit(a / 2, i) == Bit(b / 2, i) {
        NextBit(a, i);
        NextBit(b, i);
        assert Bit(a, i + 1) == Bit(b, i + 1);
      }
      BitsDetermine(a / 2, b / 2);
    }
  }

  /** What `bit` makes of two bits is a bit. */
  predicate OnBits(bit: (int, int) -> int) {
    forall p, q | 0 <= p <= 1 && 0 <= q <= 1 :: 0 <= bit(p, q) <= 1
  }

  lemma {:induction false} BitwiseBit(bit: (int, int) -> int, a: int, b: int, i: nat)
    requires OnBits(bit)
    ensures Bit(Bitwise(bit, a, b), i) == bit(Bit(a, i), Bit(b, i))
    decreases i
  {
    if i > 0 {
      var c := Bitwise(bit, a, b);
      HalfBitwise(bit, a, b);
      NextBit(c, i - 1);
      NextBit(a, i - 1);
      NextBit(b, i - 1);
      BitwiseBit(bit, a / 2, b / 2, i - 1);
    } else {
      HalfBitwise(bit, a, b);
      assert Pow2(0) == 1 && a / 1 == a && b / 1 == b && Bitwise(bit, a, b) / 1 == Bitwise(bit, a, b);
    }
  }

  lemma HalfBitwise(bit: (int, int) -> int, a: int, b: int)
    requires OnBits(bit)
    ensures Bitwise(bit, a, b) / 2 == Bitwise(bit, a / 2, b / 2) && Bitwise(bit, a, b) % 2 == bit(a % 2, b % 2)
  {
    if IsUniform(a) && IsUniform(b) {
      assert a / 2 == a && b / 2 == b && a % 2 == -a && b % 2 == -b;
      assert 0 <= bit(-a, -b) <= 1;
    } else {
      assert 0 <= bit(a % 2, b % 2) <= 1;
    }
  }

  lemma OperatorsOnBits()
    ensures OnBits(BothBits) && OnBits(EitherBit) && OnBits(DifferentBits)
  {
  }

  lemma BitOf(bit: (int, int) -> int, a: int, b: int, c: int, i: nat)
    requires OnBits(bit) && c == Bitwise(bit, a, b)
    ensures Bit(c, i) == bit(Bit(a, i), Bit(b, i))
  {
    BitwiseBit(bit, a, b, i);
  }

  /** The operators on bits, bit by bit. */
  lemma BitLaws(a: int, b: int, i: nat)
    ensures Bit(Value(BitAnd, a, b), i) == 1 <==> Bit(a, i) == 1 && Bit(b, i) == 1
    ensures Bit(Value(BitOr, a, b), i) == 1 <==> Bit(a, i) == 1 || Bit(b, i) == 1
    ensures Bit(Value(BitXor, a, b), i) == 1 <==> Bit(a, i) != Bit(b, i)
  {
    OperatorsOnBits();
    BitOf(BothBits, a, b, Value(BitAnd, a, b), i);
    BitOf(EitherBit, a, b, Value(BitOr, a, b), i);
    BitOf(DifferentBits, a, b, Value(BitXor, a, b), i);
  }
}
