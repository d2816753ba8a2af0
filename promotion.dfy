/**
 * promote_values in cxx-cexpr.c: the conversions applied to the two
 * operands of a binary operator before the operator itself runs.
 *
 * The source first turns character and boolean operands into signed int
 * and then applies four rules that look at the ORIGINAL kinds of the two
 * operands.  The outcome is not the usual arithmetic conversion of C++ in
 * every case: a signed long meeting an unsigned long leaves the two
 * operands with swapped, still different kinds; a character or boolean
 * meeting an unsigned int leaves (signed int, unsigned int); a character
 * or boolean meeting either long kind stops in internal_error.
 */
module Promotion {
  import opened Values

  datatype Operands = Operands(lhs: Value, rhs: Value)

  const UNKNOWN_KIND: string := "Unknown literal value type"

  /** The integral promotion of the first loop: characters and booleans become signed int. */
  function IntegralPromotion(v: Value): Value {
    if IsSmall(v.kind) then Value(SignedInt, v.payload) else v
  }

  /** The kind both operands reach when neither is a character or boolean
    * and they are not the signed long / unsigned long pair. */
  function CommonKind(a: Kind, b: Kind): Kind {
    if a == UnsignedLong || b == UnsignedLong then UnsignedLong
    else if a == SignedLong || b == SignedLong then SignedLong
    else UnsignedInt
  }

  /** One operand is signed long and the other unsigned long. */
  predicate IsLongPair(a: Kind, b: Kind) {
    (a == SignedLong && b == UnsignedLong) || (a == UnsignedLong && b == SignedLong)
  }

  predicate IsLong(k: Kind) {
    k == SignedLong || k == UnsignedLong
  }

  function ConvertTo(k: Kind, v: Value): Value {
    Value(k, Convert(k, v.payload))
  }

  /** What promote_values leaves in its two out-parameters, or the
    * internal_error it stops in, case by case. */
  function Promote(v1: Value, v2: Value): (r: Operands)
    ensures v1.Valid() && v2.Valid() ==> r.lhs.Valid() && r.rhs.Valid()
  {
    if v1.kind == v2.kind then Operands(v1, v2)
    else if IsSmall(v1.kind) || IsSmall(v2.kind) then
      Operands(IntegralPromotion(v1), IntegralPromotion(v2))
    else if IsLongPair(v1.kind, v2.kind) then
      // the unsigned long side is cast to signed long and the signed long
      // side to unsigned long
      Operands(ConvertTo(if v1.kind == SignedLong then UnsignedLong else SignedLong, v1),
               ConvertTo(if v2.kind == SignedLong then UnsignedLong else SignedLong, v2))
    else
      var k := CommonKind(v1.kind, v2.kind);
      Operands(ConvertTo(k, v1), ConvertTo(k, v2))
  }

  /** promote_values refuses a character or boolean meeting a long operand. */
  predicate PromotionFails(v1: Value, v2: Value) {
    v1.kind != v2.kind
    && (IsSmall(v1.kind) || IsSmall(v2.kind))
    && (IsLong(v1.kind) || IsLong(v2.kind))
  }

  function PromoteOutcome(v1: Value, v2: Value): Outcome<Operands> {
    if PromotionFails(v1, v2) then Fatal(UNKNOWN_KIND) else Ok(Promote(v1, v2))
  }

  /** Converts the operand that is not of kind `to` with the switch that
    * the source repeats in its rules 1 and 3: only the three kinds listed
    * there are accepted. */
  method ConvertOther(to: Kind, v: Value) returns (r: Outcome<Value>)
    requires to in {UnsignedLong, SignedLong} && v.kind != to
    ensures r.Ok? <==> v.kind in {SignedLong, UnsignedLong, SignedInt, UnsignedInt}
    ensures r.Ok? ==> r.value == ConvertTo(to, v)
    ensures !r.Ok? ==> r == Fatal(UNKNOWN_KIND)
  {
    match v.kind {
      case SignedLong | UnsignedLong | SignedInt | UnsignedInt =>
        r := Ok(Value(to, Convert(to, v.payload)));
      case Character | Bool =>
        r := Fatal(UNKNOWN_KIND);
    }
  }

  /** A character value written to the unsigned int member and read back
    * through the signed int member is unchanged. */
  lemma StoredThroughUnsignedInt(c: int)
    requires MinOf(Character) <= c <= MaxOf(Character)
    ensures Convert(SignedInt, Convert(UnsignedInt, c)) == c
  {
    if c < 0 {
      assert Convert(UnsignedInt, c) == c + TWO_32;
    }
  }

  /** The two out-parameters are slots of an array that the first loop and
    * the four rules write in turn; the rules test the kinds of the inputs. */
  method PromoteValues(v1: Value, v2: Value) returns (r: Outcome<Operands>)
    requires v1.Valid() && v2.Valid()
    ensures r == PromoteOutcome(v1, v2)
  {
    var inputs := [v1, v2];
    var outs := new Value[2][v1, v2];
    if v1.kind == v2.kind {
      return Ok(Operands(outs[0], outs[1]));
    }

    for i := 0 to 2
      invariant forall j :: 0 <= j < i ==> outs[j] == IntegralPromotion(inputs[j])
      invariant forall j :: i <= j < 2 ==> outs[j] == inputs[j]
    {
      var v := inputs[i];
      if v.kind == Character || v.kind == Bool {
        // the source stores through the unsigned int member and the value
        // is later read back through the signed int member
        StoredThroughUnsignedInt(v.payload);
        outs[i] := Value(SignedInt, Convert(SignedInt, Convert(UnsignedInt, v.payload)));
      }
    }

    r := ConversionRules(v1, v2, inputs, outs);
  }

  /** The conversion rules of promote_values, applied to the operands left by
    * its first loop; the rules look at the original kinds. */
  method ConversionRules(v1: Value, v2: Value, inputs: seq<Value>, outs: array<Value>) returns (r: Outcome<Operands>)
    requires v1.Valid() && v2.Valid() && v1.kind != v2.kind && inputs == [v1, v2]
    requires outs.Length == 2 && outs[0] == IntegralPromotion(v1) && outs[1] == IntegralPromotion(v2)
    modifies outs
    ensures r == PromoteOutcome(v1, v2)
  {
    // rule 1: exactly one operand is unsigned long
    if (v1.kind == UnsignedLong) != (v2.kind == UnsignedLong) {
      var k := if v1.kind == UnsignedLong then 1 else 0;
      var c := ConvertOther(UnsignedLong, inputs[k]);
      if !c.Ok? {
        return Fatal(UNKNOWN_KIND);
      }
      outs[k] := c.value;
    }
    // rule 2: signed long against unsigned int
    if (v1.kind == SignedLong && v2.kind == UnsignedInt) || (v2.kind == SignedLong && v1.kind == UnsignedInt) {
      var k := if v1.kind == SignedLong then 1 else 0;
      outs[k] := Value(SignedLong, Convert(SignedLong, inputs[k].payload));
    }
    // rule 3: exactly one operand is signed long
    if (v1.kind == SignedLong) != (v2.kind == SignedLong) {
      var k := if v1.kind == SignedLong then 1 else 0;
      var c := ConvertOther(SignedLong, inputs[k]);
      if !c.Ok? {
        return Fatal(UNKNOWN_KIND);
      }
      outs[k] := c.value;
    }
    // rule 4: signed long against unsigned long
    if (v1.kind == UnsignedLong && v2.kind == SignedLong) || (v1.kind == SignedLong && v2.kind == UnsignedLong) {
      var k := if v1.kind == SignedLong then 0 else 1;
      outs[k] := Value(UnsignedLong, Convert(UnsignedLong, inputs[k].payload));
    }
    // rule 5: signed int against unsigned int
    if (v1.kind == UnsignedInt && v2.kind == SignedInt) || (v1.kind == SignedInt && v2.kind == UnsignedInt) {
      var k := if v1.kind == SignedInt then 0 else 1;
      outs[k] := Value(UnsignedInt, Convert(UnsignedInt, inputs[k].payload));
    }
    r := Ok(Operands(outs[0], outs[1]));
  }

  /** Operands of one kind are passed through untouched. */
  lemma PromoteSameKind(v1: Value, v2: Value)
    requires v1.kind == v2.kind
    ensures PromoteOutcome(v1, v2) == Ok(Operands(v1, v2))
  {
  }

  /** Among the four integer kinds (other than the signed long / unsigned
    * long pair) the "wider" kind absorbs the other: unsigned long absorbs
    * both int kinds, signed long absorbs both int kinds, unsigned int
    * absorbs signed int; every payload is the old one modulo 2^width. */
  lemma PromoteIntegerKinds(v1: Value, v2: Value)
    requires v1.Valid() && v2.Valid()
    requires !IsSmall(v1.kind) && !IsSmall(v2.kind) && v1.kind != v2.kind
    requires !IsLongPair(v1.kind, v2.kind)
    ensures PromoteOutcome(v1, v2).Ok?
    ensures var p := Promote(v1, v2);
      && p.lhs.kind == p.rhs.kind
      && (v1.kind == UnsignedLong || v2.kind == UnsignedLong ==> p.lhs.kind == UnsignedLong)
      && (v1.kind == SignedLong || v2.kind == SignedLong ==> p.lhs.kind == SignedLong)
      && (!IsLong(v1.kind) && !IsLong(v2.kind) ==> p.lhs.kind == UnsignedInt)
      && p.lhs.Valid() && p.rhs.Valid()
      && (p.lhs.payload - v1.payload) % Modulus(p.lhs.kind) == 0
      && (p.rhs.payload - v2.payload) % Modulus(p.rhs.kind) == 0
  {
    var k := CommonKind(v1.kind, v2.kind);
    ConvertCongruent(k, v1.payload);
    ConvertCongruent(k, v2.payload);
    CongruenceSymmetric(v1.payload, Convert(k, v1.payload), k);
    CongruenceSymmetric(v2.payload, Convert(k, v2.payload), k);
  }

  /** A widening conversion keeps the value: int payloads fit both long
    * kinds' ... signed ones fit signed long, and every int payload fits
    * signed long (the source relies on long holding every unsigned int). */
  lemma PromoteWideningKeepsValue(v1: Value, v2: Value)
    requires v1.Valid() && v2.Valid()
    requires v1.kind in {SignedInt, UnsignedInt} && v2.kind == SignedLong
    ensures Promote(v1, v2) == Operands(Value(SignedLong, v1.payload), v2)
  {
  }

  /** Signed long against unsigned long: the two operands swap kinds, so
    * they still differ and binary_operation stops. */
  lemma PromoteLongPairMismatch(v1: Value, v2: Value)
    requires IsLongPair(v1.kind, v2.kind)
    ensures PromoteOutcome(v1, v2).Ok?
    ensures Promote(v1, v2).lhs.kind == v2.kind && Promote(v1, v2).rhs.kind == v1.kind
  {
  }

  /** Characters and booleans become signed int with their value kept;
    * against signed int, character or boolean that settles the kinds,
    * against unsigned int the kinds stay different, and against either
    * long kind promote_values stops. */
  lemma PromoteSmallKinds(v1: Value, v2: Value)
    requires v1.kind != v2.kind && IsSmall(v1.kind)
    ensures !IsLong(v2.kind) ==> PromoteOutcome(v1, v2).Ok? && Promote(v1, v2).lhs == Value(SignedInt, v1.payload)
    ensures v2.kind in {SignedInt, Character, Bool} ==>
      Promote(v1, v2) == Operands(Value(SignedInt, v1.payload), Value(SignedInt, v2.payload))
    ensures v2.kind == UnsignedInt ==> Promote(v1, v2) == Operands(Value(SignedInt, v1.payload), v2)
    ensures IsLong(v2.kind) ==> PromoteOutcome(v1, v2) == Fatal(UNKNOWN_KIND)
  {
  }

  /** The promoted operands have a common kind exactly when the pair is
    * neither signed long / unsigned long nor a character or boolean
    * against unsigned int. */
  lemma PromoteKindsAgree(v1: Value, v2: Value)
    requires !PromotionFails(v1, v2)
    ensures Promote(v1, v2).lhs.kind == Promote(v1, v2).rhs.kind <==>
      !IsLongPair(v1.kind, v2.kind)
      && !(IsSmall(v1.kind) && v2.kind == UnsignedInt)
      && !(IsSmall(v2.kind) && v1.kind == UnsignedInt)
  {
  }

  /** Converting to a field at least as wide keeps a payload zero or non-zero. */
  lemma ConvertKeepsZero(k: Kind, v: Value)
    requires v.Valid() && Modulus(v.kind) <= Modulus(k)
    ensures Convert(k, v.payload) == 0 <==> v.payload == 0
  {
  }

  /** Promotion never changes whether an operand is zero, so && and || see
    * the same truth values after promotion as before. */
  lemma PromoteKeepsZero(v1: Value, v2: Value)
    requires v1.Valid() && v2.Valid() && !PromotionFails(v1, v2)
    ensures IsZero(Promote(v1, v2).lhs) <==> IsZero(v1)
    ensures IsZero(Promote(v1, v2).rhs) <==> IsZero(v2)
    ensures Promote(v1, v2).lhs.Valid() && Promote(v1, v2).rhs.Valid()
  {
    if v1.kind != v2.kind && !IsSmall(v1.kind) && !IsSmall(v2.kind) {
      var p := Promote(v1, v2);
      ConvertKeepsZero(p.lhs.kind, v1);
      ConvertKeepsZero(p.rhs.kind, v2);
    }
  }
}
