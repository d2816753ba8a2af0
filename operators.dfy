/**
 * The unary and binary operator functions of cxx-cexpr.c and the
 * binary_ops table that says which binary operators evaluate their right
 * operand conditionally.
 *
 * Every binary operator receives two operands of one kind (the caller has
 * promoted them) and switches on that kind.  Arithmetic on the character
 * and boolean fields happens in int (C's integral promotion) and the
 * result is narrowed back to the 8-bit field.  Operations whose C
 * behaviour is undefined on the host are excluded by `HostUndefined`,
 * which the operator functions take as a precondition.
 */
module Operators {
  import opened Values

  datatype BinOp =
    | LogicalOr | LogicalAnd
    | BitwiseOr | BitwiseXor | BitwiseAnd
    | Different | Equal | LowerThan | GreaterThan | GreaterOrEqualThan | LowerOrEqualThan
    | ShiftLeft | ShiftRight
    | Add | Subtract | Multiply | Modulo | Divide

  /** The two flags of a binary_ops entry: a strict operator always
    * evaluates its right operand; a non-strict one evaluates it only when
    * the left operand is zero (`evalRhsIfLhsZero`) or only when it is
    * non-zero (otherwise). */
  datatype Strictness = Strict | NonStrict(evalRhsIfLhsZero: bool)

  function BinaryOps(op: BinOp): (r: Strictness)
    ensures r.NonStrict? <==> op == LogicalOr || op == LogicalAnd
    ensures op == LogicalAnd ==> r == NonStrict(true)
    ensures op == LogicalOr ==> r == NonStrict(false)
  {
    match op
    case LogicalOr => NonStrict(false)
    case LogicalAnd => NonStrict(true)
    case _ => Strict
  }

  /** Whether binary_operation evaluates the right operand once the left one is known. */
  predicate EvaluatesRhs(op: BinOp, lhs: Value)
    ensures op == LogicalAnd ==> (EvaluatesRhs(op, lhs) <==> IsZero(lhs))
    ensures op == LogicalOr ==> (EvaluatesRhs(op, lhs) <==> !IsZero(lhs))
    ensures op != LogicalAnd && op != LogicalOr ==> EvaluatesRhs(op, lhs)
  {
    match BinaryOps(op)
    case Strict => true
    case NonStrict(ifZero) => if ifZero then IsZero(lhs) else !IsZero(lhs)
  }

  /** The binary_ops entries with the two non-strict flags the other way
    * round, as C's short-circuit rules ask: `&&` needs its right operand
    * only after a non-zero left one, `||` only after a zero one.  For
    * every operator the decision is the one the table makes, except that
    * it is inverted for `&&` and `||`. */
  predicate IntendedEvaluatesRhs(op: BinOp, lhs: Value)
    ensures op == LogicalAnd || op == LogicalOr ==> (IntendedEvaluatesRhs(op, lhs) <==> !EvaluatesRhs(op, lhs))
    ensures op != LogicalAnd && op != LogicalOr ==> (IntendedEvaluatesRhs(op, lhs) <==> EvaluatesRhs(op, lhs))
  {
    match op
    case LogicalAnd => !IsZero(lhs)
    case LogicalOr => IsZero(lhs)
    case _ => true
  }

  /** The operators whose result is a boolean 0 or 1. */
  predicate YieldsBool(op: BinOp) {
    op in {LogicalOr, LogicalAnd, Different, Equal, LowerThan, GreaterThan, GreaterOrEqualThan, LowerOrEqualThan}
  }

  function Pow2(n: nat): (r: nat)
    ensures r >= 1
  {
    if n == 0 then 1 else 2 * Pow2(n - 1)
  }

  /** Width of the type an operand of kind k has after C's integral
    * promotion: the shift count must stay below it. */
  function PromotedWidth(k: Kind): nat {
    if IsLong(k) then 64 else 32
  }

  predicate IsLong(k: Kind) {
    k == SignedLong || k == UnsignedLong
  }

  /** Largest value of the promoted type of a signed operand. */
  function PromotedMax(k: Kind): int {
    if IsLong(k) then MaxOf(SignedLong) else MaxOf(SignedInt)
  }

  /** C's `/`, which truncates toward zero. */
  function TruncDiv(x: int, y: int): int
    requires y != 0
  {
    var q := Abs(x) / Abs(y);
    if (x < 0) == (y < 0) then q else -q
  }

  /** C's `%`: the remainder takes the sign of the dividend. */
  function TruncRem(x: int, y: int): int
    requires y != 0
  {
    var m := Abs(x) % Abs(y);
    if x < 0 then -m else m
  }

  function Abs(x: int): nat {
    if x < 0 then -x else x
  }

  /** The C operation is undefined on the host for these operands: a
    * division or remainder by zero, the one signed quotient that does not
    * fit (and traps on x86), a signed int or long sum, difference or
    * product out of range, a shift count that is negative or not below
    * the promoted width, or a left shift of a negative signed value or one
    * whose result the promoted type cannot hold. */
  predicate HostUndefined(op: BinOp, a: Value, b: Value) {
    var k := a.kind;
    var x, y := a.payload, b.payload;
    var exactSigned := !IsUnsigned(k) && !IsSmall(k);
    match op
    case Add => exactSigned && !(MinOf(k) <= x + y <= MaxOf(k))
    case Subtract => exactSigned && !(MinOf(k) <= x - y <= MaxOf(k))
    case Multiply => exactSigned && !(MinOf(k) <= x * y <= MaxOf(k))
    case Divide | Modulo => y == 0 || (exactSigned && x == MinOf(k) && y == -1)
    case ShiftLeft =>
      y < 0 || y >= PromotedWidth(k)
      || (!IsUnsigned(k) && (x < 0 || x * Pow2(y) > PromotedMax(k)))
    case ShiftRight => y < 0 || y >= PromotedWidth(k)
    case _ => false
  }

  function Bits(x: int): bv64 {
    (x % TWO_64) as bv64
  }

  function BoolValue(b: bool): (r: Value)
    ensures r.Valid() && r.kind == Bool && (IsZero(r) <==> !b)
  {
    Value(Bool, if b then 1 else 0)
  }

  /** Reduces an exact result into the field of kind k. */
  function InField(k: Kind, exact: int): (r: Value)
    ensures r.Valid() && r.kind == k
  {
    Value(k, Convert(k, exact))
  }

  /** The bitwise operators act on the two's-complement bit patterns. */
  function BitwiseResult(op: BinOp, x: int, y: int): int
    requires op in {BitwiseOr, BitwiseXor, BitwiseAnd}
  {
    var px, py := Bits(x), Bits(y);
    (if op == BitwiseOr then px | py else if op == BitwiseXor then px ^ py else px & py) as int
  }

  /** The exact (unreduced) result of an arithmetic or shift operator,
    * computed as C computes it once undefined cases are excluded. */
  function ArithmeticResult(op: BinOp, x: int, y: int): int
    requires op in {Add, Subtract, Multiply, Divide, Modulo, ShiftLeft, ShiftRight}
    requires op in {Divide, Modulo} ==> y != 0
    requires op in {ShiftLeft, ShiftRight} ==> y >= 0
  {
    match op
    case Add => x + y
    case Subtract => x - y
    case Multiply => x * y
    case Divide => TruncDiv(x, y)
    case Modulo => TruncRem(x, y)
    case ShiftLeft => x * Pow2(y)
    case ShiftRight => x / Pow2(y)
  }

  /** bop.fun(e1, e2) for two operands of one kind. */
  function Combine(op: BinOp, a: Value, b: Value): (r: Value)
    requires a.Valid() && b.Valid() && a.kind == b.kind
    requires !HostUndefined(op, a, b)
    ensures r.Valid()
    ensures r.kind == if YieldsBool(op) then Bool else a.kind
  {
    var x, y := a.payload, b.payload;
    match op
    case LogicalOr => BoolValue(x != 0 || y != 0)
    case LogicalAnd => BoolValue(x != 0 && y != 0)
    case Different => BoolValue(x != y)
    case Equal => BoolValue(x == y)
    case LowerThan => BoolValue(x < y)
    case GreaterThan => BoolValue(x > y)
    case GreaterOrEqualThan => BoolValue(x >= y)
    case LowerOrEqualThan => BoolValue(x <= y)
    case BitwiseOr | BitwiseXor | BitwiseAnd => InField(a.kind, BitwiseResult(op, x, y))
    case _ => InField(a.kind, ArithmeticResult(op, x, y))
  }

  /** not_operation: `!` on the field, which keeps the kind. */
  function NotValue(v: Value): (r: Value)
    requires v.Valid()
    ensures r.Valid() && r.kind == v.kind
    ensures IsZero(r) <==> !IsZero(v)
    ensures r.payload == 0 || r.payload == 1
  {
    Value(v.kind, if v.payload == 0 then 1 else 0)
  }

  /** negate_operation: unary `-` on the field; the most negative signed
    * int or long has no negation in C. */
  predicate NegateUndefined(v: Value)
    ensures NegateUndefined(v) <==> !IsUnsigned(v.kind) && !IsSmall(v.kind) && v.payload == MinOf(v.kind)
  {
    match v.kind
    case SignedInt => v.payload == -0x8000_0000
    case SignedLong => v.payload == -0x8000_0000_0000_0000
    case _ => false
  }

  function NegateValue(v: Value): (r: Value)
    requires v.Valid() && !NegateUndefined(v)
    ensures r.Valid() && r.kind == v.kind
  {
    Value(v.kind, Convert(v.kind, -v.payload))
  }

  /** Unary `-` gives the additive inverse modulo the field size. */
  lemma NegateCongruent(v: Value)
    requires v.Valid() && !NegateUndefined(v)
    ensures (NegateValue(v).payload + v.payload) % Modulus(v.kind) == 0
  {
    var c := NegateValue(v).payload;
    ConvertCongruent(v.kind, -v.payload);
    CongruenceSymmetric(-v.payload, c, v.kind);
    assert c - -v.payload == c + v.payload;
  }

  /** complement_operation: `~` on the field, i.e. -x-1 in two's complement. */
  function ComplementValue(v: Value): (r: Value)
    requires v.Valid()
    ensures r.Valid() && r.kind == v.kind
  {
    Value(v.kind, Convert(v.kind, -v.payload - 1))
  }

  /** `~` gives -x-1 modulo the field size. */
  lemma ComplementCongruent(v: Value)
    requires v.Valid()
    ensures (ComplementValue(v).payload + v.payload + 1) % Modulus(v.kind) == 0
  {
    var c := ComplementValue(v).payload;
    ConvertCongruent(v.kind, -v.payload - 1);
    CongruenceSymmetric(-v.payload - 1, c, v.kind);
    assert c - (-v.payload - 1) == c + v.payload + 1;
  }

  /** Signed int and long arithmetic that is defined gives the exact result. */
  lemma SignedArithmeticIsExact(op: BinOp, a: Value, b: Value)
    requires a.Valid() && b.Valid() && a.kind == b.kind && !HostUndefined(op, a, b)
    requires a.kind in {SignedInt, SignedLong} && op in {Add, Subtract, Multiply}
    ensures Combine(op, a, b).payload == ArithmeticResult(op, a.payload, b.payload)
  {
  }

  /** Unsigned, character and boolean sums, differences and products wrap:
    * the result agrees with the exact one modulo the field size. */
  lemma ArithmeticWraps(op: BinOp, a: Value, b: Value)
    requires a.Valid() && b.Valid() && a.kind == b.kind && !HostUndefined(op, a, b)
    requires op in {Add, Subtract, Multiply}
    ensures (ArithmeticResult(op, a.payload, b.payload) - Combine(op, a, b).payload) % Modulus(a.kind) == 0
  {
    var e := ArithmeticResult(op, a.payload, b.payload);
    assert Combine(op, a, b) == InField(a.kind, e);
    ConvertCongruent(a.kind, e);
  }

  lemma MulMonotonic(d: nat, q: nat)
    requires d >= 1
    ensures d * q >= q
  {
    assert d * q == (d - 1) * q + q;
  }

  /** TruncDiv and TruncRem satisfy C's identity (x / y) * y + x % y == x,
    * and the quotient is no larger in magnitude than the dividend. */
  lemma {:induction false} TruncDivision(x: int, y: int)
    requires y != 0
    ensures Abs(TruncDiv(x, y)) <= Abs(x)
    ensures TruncDiv(x, y) * y + TruncRem(x, y) == x
  {
    var ax: int, ay: int := Abs(x), Abs(y);
    var q: int := ax / ay;
    var m := ax % ay;
    MulMonotonic(ay, q);
    assert ax == ay * q + m;
    var t, r := TruncDiv(x, y), TruncRem(x, y);
    assert t == (if (x < 0) == (y < 0) then q else -q);
    assert r == (if x < 0 then -m else m);
    SignedProduct(q, ay);
  }

  /** The sign rules of a product. */
  lemma SignedProduct(a: int, b: int)
    ensures (-a) * b == -(a * b) && a * (-b) == -(a * b) && (-a) * (-b) == a * b
  {
  }

  lemma QuotientShrinks(n: nat, d: nat)
    requires d >= 2
    ensures n / d <= n && (n > 0 ==> n / d < n)
  {
    var q := n / d;
    assert d * q + n % d == n;
    assert d * q == 2 * q + (d - 2) * q;
  }

  /** Dividing by 1 or -1 gives the dividend or its negation. */
  lemma QuotientByUnit(x: int, y: int)
    requires y == 1 || y == -1
    ensures y == 1 ==> TruncDiv(x, y) == x
    ensures y == -1 ==> TruncDiv(x, y) == -x
  {
    assert Abs(y) == 1;
    assert Abs(x) / 1 == Abs(x);
  }

  /** Dividing by anything larger in magnitude shrinks a non-zero dividend. */
  lemma QuotientMagnitude(x: int, y: int)
    requires Abs(y) >= 2
    ensures Abs(TruncDiv(x, y)) <= Abs(x) && (x != 0 ==> Abs(TruncDiv(x, y)) < Abs(x))
  {
    QuotientShrinks(Abs(x), Abs(y));
  }

  /** A quotient of field values stays in the field, except the most
    * negative value divided by -1. */
  lemma QuotientInRange(k: Kind, x: int, y: int)
    requires MinOf(k) <= x <= MaxOf(k) && MinOf(k) <= y <= MaxOf(k)
    requires y != 0 && !(x == MinOf(k) && y == -1)
    ensures MinOf(k) <= TruncDiv(x, y) <= MaxOf(k)
  {
    var lo, hi := MinOf(k), MaxOf(k);
    assert lo == 0 || lo == -(hi + 1);
    QuotientWithin(lo, hi, x, y);
  }

  /** The same, for any range that is either [0, hi] or [-(hi + 1), hi]. */
  lemma QuotientWithin(lo: int, hi: int, x: int, y: int)
    requires lo == 0 || lo == -(hi + 1)
    requires lo <= x <= hi && lo <= y <= hi
    requires y != 0 && !(x == lo && y == -1)
    ensures lo <= TruncDiv(x, y) <= hi
  {
    if y == 1 || y == -1 {
      QuotientByUnit(x, y);
    } else {
      QuotientMagnitude(x, y);
    }
  }

  /** C's division identity holds of the evaluated operators:
    * (x / y) * y + x % y == x, with the remainder smaller than the divisor
    * and carrying the sign of the dividend.  The quotient of the most
    * negative value by -1 is excluded: it is undefined for int and long
    * and wraps for the 8-bit fields. */
  lemma DivisionIdentity(a: Value, b: Value)
    requires a.Valid() && b.Valid() && a.kind == b.kind
    requires b.payload != 0 && !(a.payload == MinOf(a.kind) && b.payload == -1)
    ensures Combine(Divide, a, b).payload * b.payload + Combine(Modulo, a, b).payload == a.payload
    ensures Abs(Combine(Modulo, a, b).payload) < Abs(b.payload)
    ensures Combine(Modulo, a, b).payload == 0 || (Combine(Modulo, a, b).payload < 0 <==> a.payload < 0)
  {
    var x, y := a.payload, b.payload;
    var k := a.kind;
    TruncDivision(x, y);
    var q := TruncDiv(x, y);
    QuotientInRange(k, x, y);
    assert Combine(Divide, a, b).payload == q;
    assert Combine(Modulo, a, b).payload == TruncRem(x, y);
  }

  /** `~` undoes itself. */
  lemma ComplementInvolutive(v: Value)
    requires v.Valid()
    ensures ComplementValue(ComplementValue(v)) == v
  {
    var c := ComplementValue(v);
    ComplementCongruent(v);
    CongruenceSymmetric(c.payload, -v.payload - 1, v.kind);
    assert -v.payload - 1 - c.payload == -c.payload - 1 - v.payload;
    ConvertUnique(v.kind, -c.payload - 1, v.payload);
  }

  /** Unary `-` undoes itself where it is defined twice. */
  lemma NegateInvolutive(v: Value)
    requires v.Valid() && !NegateUndefined(v) && !NegateUndefined(NegateValue(v))
    ensures NegateValue(NegateValue(v)) == v
  {
    var n := NegateValue(v);
    ConvertCongruent(v.kind, -v.payload);
    assert -n.payload - v.payload == -v.payload - n.payload;
    ConvertUnique(v.kind, -n.payload, v.payload);
  }

  /** `!=` is the negation of `==`, and `<` is `>` with the operands swapped. */
  lemma ComparisonDuality(a: Value, b: Value)
    requires a.Valid() && b.Valid() && a.kind == b.kind
    ensures Combine(Different, a, b) == NotValue(Combine(Equal, a, b))
    ensures Combine(LowerThan, a, b) == Combine(GreaterThan, b, a)
    ensures Combine(LowerOrEqualThan, a, b) == NotValue(Combine(GreaterThan, a, b))
  {
  }
}
