/**
 * The values handled by the constant-expression evaluator of the C/C++
 * front end (literal_value_t in cxx-cexpr.c): a kind tag and a payload
 * that lives in one field of a C union.
 *
 * Widths follow the LP64 x86 target the evaluator is compiled for: `int`
 * is 32 bits, `long` is 64 bits, plain `char` is a signed 8-bit type, and
 * the boolean field is taken to be a `char` as well.  The payload is kept
 * as a mathematical integer that always lies in the range of its field.
 */
module Values {

  datatype Kind = SignedInt | UnsignedInt | SignedLong | UnsignedLong | Character | Bool

  /** Outcome of an evaluation step.  `Fatal` is a call to internal_error
    * (the process stops), `Undefined` an operation whose C behaviour is
    * undefined on the host (division by zero, signed overflow, an
    * out-of-range shift), `Indeterminate` a read of a value that was never
    * initialised, `Exhausted` a chain of symbol dereferences longer than
    * the bound the model is given (unbounded recursion in the source). */
  datatype Outcome<T> =
    | Ok(value: T)
    | Fatal(message: string)
    | Undefined(reason: string)
    | Indeterminate
    | Exhausted

  /** The same failure, carried into an outcome of another type. */
  function Propagate<T, U>(o: Outcome<T>): (r: Outcome<U>)
    requires !o.Ok?
    ensures !r.Ok?
  {
    match o
    case Fatal(m) => Fatal(m)
    case Undefined(m) => Undefined(m)
    case Indeterminate => Indeterminate
    case Exhausted => Exhausted
  }

  const TWO_8: int := 0x100
  const TWO_32: int := 0x1_0000_0000
  const TWO_64: int := 0x1_0000_0000_0000_0000

  predicate IsUnsigned(k: Kind) {
    k == UnsignedInt || k == UnsignedLong
  }

  /** The character and boolean kinds, which C promotes to int before any arithmetic. */
  predicate IsSmall(k: Kind) {
    k == Character || k == Bool
  }

  /** Number of distinct values of the field that holds kind k. */
  function Modulus(k: Kind): int {
    match k
    case SignedInt | UnsignedInt => TWO_32
    case SignedLong | UnsignedLong => TWO_64
    case Character | Bool => TWO_8
  }

  function MinOf(k: Kind): int {
    if IsUnsigned(k) then 0 else -(Modulus(k) / 2)
  }

  function MaxOf(k: Kind): int {
    if IsUnsigned(k) then Modulus(k) - 1 else Modulus(k) / 2 - 1
  }

  /** Conversion of any integer to the field type of kind k, as a C cast
    * does on a two's-complement machine: reduction modulo 2^width into the
    * field's range (gcc's documented choice for signed targets). */
  function Convert(k: Kind, x: int): (r: int)
    ensures MinOf(k) <= r <= MaxOf(k)
    ensures MinOf(k) <= x <= MaxOf(k) ==> r == x
  {
    var m := x % Modulus(k);
    Reduction(x, k);
    if m <= MaxOf(k) then m else m - Modulus(k)
  }

  /** The converted value is congruent to x modulo the field size. */
  lemma ConvertCongruent(k: Kind, x: int)
    ensures (x - Convert(k, x)) % Modulus(k) == 0
  {
    Reduction(x, k);
  }

  /** Reduction modulo the field size: the remainder and the remainder
    * less the field size are both congruent to x, and a value less than
    * one field size away from zero reduces to itself or to itself plus
    * the field size. */
  lemma Reduction(x: int, k: Kind)
    ensures 0 <= x % Modulus(k) < Modulus(k)
    ensures (x - x % Modulus(k)) % Modulus(k) == 0
    ensures (x - (x % Modulus(k) - Modulus(k))) % Modulus(k) == 0
    ensures 0 <= x < Modulus(k) ==> x % Modulus(k) == x
    ensures -Modulus(k) <= x < 0 ==> x % Modulus(k) == x + Modulus(k)
  {
    var M := Modulus(k);
    assert M == TWO_8 || M == TWO_32 || M == TWO_64;
    var q := x / M;
    assert x - x % M == M * q;
    assert (M * q) % M == 0 by {
      ModulusMultiple(k, q);
    }
    assert (M * (q + 1)) % M == 0 by {
      ModulusMultiple(k, q + 1);
    }
  }

  /** Every multiple of the field size is congruent to zero. */
  lemma ModulusMultiple(k: Kind, q: int)
    ensures (Modulus(k) * q) % Modulus(k) == 0
  {
    match k
    case SignedInt | UnsignedInt =>
    case SignedLong | UnsignedLong =>
    case Character | Bool =>
  }

  /** A value in the field of kind k that is congruent to x modulo the
    * field size is the conversion of x: conversions are determined by
    * their range and their congruence. */
  lemma ConvertUnique(k: Kind, x: int, r: int)
    requires MinOf(k) <= r <= MaxOf(k) && (x - r) % Modulus(k) == 0
    ensures Convert(k, x) == r
  {
    var c := Convert(k, x);
    ConvertCongruent(k, x);
    var M := Modulus(k);
    var q1, q2 := (x - r) / M, (x - c) / M;
    assert x - r == M * q1;
    assert x - c == M * q2;
    assert c - r == M * (q1 - q2);
    assert -M < c - r < M;
    SmallMultiple(M, q1 - q2);
  }

  /** Congruence modulo the field size is symmetric. */
  lemma CongruenceSymmetric(x: int, y: int, k: Kind)
    requires (x - y) % Modulus(k) == 0
    ensures (y - x) % Modulus(k) == 0
  {
    var M := Modulus(k);
    var q := (x - y) / M;
    assert x - y == M * q;
    assert y - x == M * -q;
    ModulusMultiple(k, -q);
  }

  /** The only multiple of M strictly between -M and M is zero. */
  lemma SmallMultiple(M: int, d: int)
    requires M > 0 && -M < M * d < M
    ensures d == 0
  {
    if d >= 1 {
      MultipleBound(M, d);
    } else if d <= -1 {
      NegativeMultipleBound(M, d);
    }
  }

  lemma NegativeMultipleBound(M: int, d: int)
    requires M > 0 && d <= -1
    ensures M * d <= -M
  {
    assert M * d == -M + M * (d + 1);
  }

  /** A positive multiple of a positive number is at least that number. */
  lemma MultipleBound(M: int, d: int)
    requires M > 0 && d >= 1
    ensures M * d >= M
  {
    assert M * d == M + M * (d - 1);
  }

  datatype Value = Value(kind: Kind, payload: int) {
    /** The payload fits the C field of the kind. */
    predicate Valid() {
      MinOf(kind) <= payload <= MaxOf(kind)
    }
  }

  /** value_is_zero: every kind compares its own field with zero. */
  predicate IsZero(v: Value)
    ensures IsZero(v) <==> v == Value(v.kind, 0)
  {
    v.payload == 0
  }

  /** literal_value_zero. */
  function Zero(): (r: Value)
    ensures r.Valid() && r.kind == SignedInt && IsZero(r)
  {
    Value(SignedInt, 0)
  }

  /** literal_value_minus_one. */
  function MinusOne(): (r: Value)
    ensures r.Valid() && r.kind == SignedInt && !IsZero(r)
  {
    Value(SignedInt, -1)
  }

  /** increment_literal_value: `++` on the field of the value's kind.
    * Signed int and long overflow is undefined; unsigned fields wrap; the
    * character field is incremented through int and narrowed back; a
    * boolean is refused. */
  function Increment(v: Value): (r: Outcome<Value>)
    requires v.Valid()
    ensures r.Fatal? <==> v.kind == Bool
    ensures r.Undefined? <==> (v.kind in {SignedInt, SignedLong} && v.payload == MaxOf(v.kind))
    ensures r.Ok? ==> r.value.kind == v.kind && r.value.Valid()
    ensures r.Ok? ==> (r.value.payload - (v.payload + 1)) % Modulus(v.kind) == 0
    ensures !r.Fatal? && !r.Undefined? ==> r.Ok?
  {
    match v.kind
    case SignedInt | SignedLong =>
      if v.payload == MaxOf(v.kind) then Undefined("signed overflow in ++")
      else Ok(Value(v.kind, v.payload + 1))
    case UnsignedInt | UnsignedLong | Character =>
      Ok(Value(v.kind, Convert(v.kind, v.payload + 1)))
    case Bool =>
      Fatal("This is not a valid value to be incremented")
  }

  lemma IncrementMinusOneIsZero()
    ensures Increment(MinusOne()) == Ok(Zero())
  {
  }

  /** Incrementing the largest value of an unsigned or character field wraps to its smallest. */
  lemma IncrementWraps(v: Value)
    requires v.Valid() && v.kind in {UnsignedInt, UnsignedLong, Character}
    requires v.payload == MaxOf(v.kind)
    ensures Increment(v) == Ok(Value(v.kind, MinOf(v.kind)))
  {
  }
}
