/**
 * evaluate_constant_expression and its helpers in cxx-cexpr.c: a
 * recursive interpreter over constant-expression trees.
 *
 * Symbol references are resolved in the scope and the expression cached
 * in the symbol is evaluated in turn; `fuel` bounds how many such
 * dereferences may be nested, standing for the unbounded recursion the
 * source would enter on a self-referential initializer.  Every other
 * recursive call is on a subtree.
 */
module Evaluator {
  import opened Wrappers
  import opened Values
  import opened Promotion
  import opened Operators
  import opened Syntax
  import opened Literals

  const UNSUPPORTED_NODE: string := "Unsupported node when evaluating constant expression"
  const KIND_MISMATCH: string := "Both types should be the same"
  const UNKNOWN_SYMBOL: string := "Cannot evaluate unknown symbol"
  const NOT_AN_EXPRESSION: string := "This symbol is not an expression"
  const NO_VALUE: string := "This symbol does not have a value"

  /** evaluate_constant_expression: the value of a tree, or why there is none. */
  function Evaluate(a: Node, st: Scope, fuel: nat): (r: Outcome<Value>)
    ensures r.Ok? ==> r.value.Valid()
    // a literal leaf is evaluated by create_value_from_literal alone
    ensures a.Literal? ==> r == CreateValueFromLiteral(a.literalKind, a.text)
    decreases fuel, a, 1
  {
    match a
    case ConstantExpression(e) => Evaluate(e, st, fuel)
    case Parenthesized(e) => Evaluate(e, st, fuel)
    case QualifiedId(_) => EvaluateSymbol(a, st, fuel)
    case Symbol(_) => EvaluateSymbol(a, st, fuel)
    case Binary(_, _, _) => BinaryOperation(a, st, fuel)
    // cast_expression evaluates the operand and ignores the target type
    case Cast(_, e) => Evaluate(e, st, fuel)
    case Conditional(_, _, _) => EvaluateConditional(a, st, fuel)
    case Literal(kind, text) => CreateValueFromLiteral(kind, text)
    case UnaryPlus(e) => Evaluate(e, st, fuel)
    case LogicalNot(_) => NotOperation(a, st, fuel)
    case Negate(_) => NegateOperation(a, st, fuel)
    case Complement(_) => ComplementOperation(a, st, fuel)
    case Unsupported(_) => Fatal(UNSUPPORTED_NODE)
  }

  /** not_operation: `!` applied to the operand's value. */
  function NotOperation(a: Node, st: Scope, fuel: nat): (r: Outcome<Value>)
    requires a.LogicalNot?
    ensures r.Ok? ==> r.value.Valid()
    decreases fuel, a, 0
  {
    var v := Evaluate(a.expression, st, fuel);
    if !v.Ok? then v else Ok(NotValue(v.value))
  }

  /** negate_operation: unary `-`, undefined in C on the most negative
    * signed value. */
  function NegateOperation(a: Node, st: Scope, fuel: nat): (r: Outcome<Value>)
    requires a.Negate?
    ensures r.Ok? ==> r.value.Valid()
    decreases fuel, a, 0
  {
    var v := Evaluate(a.expression, st, fuel);
    if !v.Ok? then v
    else if NegateUndefined(v.value) then Undefined("negation of the most negative value")
    else Ok(NegateValue(v.value))
  }

  /** complement_operation: `~` applied to the operand's value. */
  function ComplementOperation(a: Node, st: Scope, fuel: nat): (r: Outcome<Value>)
    requires a.Complement?
    ensures r.Ok? ==> r.value.Valid()
    decreases fuel, a, 0
  {
    var v := Evaluate(a.expression, st, fuel);
    if !v.Ok? then v else Ok(ComplementValue(v.value))
  }

  /** binary_operation: the left operand first; the right one only when
    * the operator's binary_ops entry says so, and otherwise the
    * uninitialised right value makes the outcome indeterminate; then
    * promotion, the same-kind check and the operator itself. */
  function BinaryOperation(a: Node, st: Scope, fuel: nat): (r: Outcome<Value>)
    requires a.Binary?
    ensures r.Ok? ==> r.value.Valid()
    decreases fuel, a, 0
  {
    var lhs := Evaluate(a.lhs, st, fuel);
    if !lhs.Ok? then lhs
    else if !EvaluatesRhs(a.op, lhs.value) then Indeterminate
    else
      var rhs := Evaluate(a.rhs, st, fuel);
      if !rhs.Ok? then rhs
      else
        var p := PromoteOutcome(lhs.value, rhs.value);
        if !p.Ok? then Fatal(UNKNOWN_KIND)
        else if p.value.lhs.kind != p.value.rhs.kind then Fatal(KIND_MISMATCH)
        else if HostUndefined(a.op, p.value.lhs, p.value.rhs) then Undefined("operation undefined in C")
        else Ok(Combine(a.op, p.value.lhs, p.value.rhs))
  }

  /** evaluate_conditional_expression: only the selected branch is evaluated. */
  function EvaluateConditional(a: Node, st: Scope, fuel: nat): (r: Outcome<Value>)
    requires a.Conditional?
    ensures r.Ok? ==> r.value.Valid()
    decreases fuel, a, 0
  {
    var c := Evaluate(a.condition, st, fuel);
    if !c.Ok? then c
    else if IsZero(c.value) then Evaluate(a.ifFalse, st, fuel)
    else Evaluate(a.ifTrue, st, fuel)
  }

  /** evaluate_symbol: the name must denote an enumerator or a variable
    * whose expression is cached; that expression is evaluated in the
    * same scope. */
  function EvaluateSymbol(a: Node, st: Scope, fuel: nat): (r: Outcome<Value>)
    requires a.Symbol? || a.QualifiedId?
    ensures r.Ok? ==> r.value.Valid()
    decreases fuel, a, 0
  {
    if a.name !in st then Fatal(UNKNOWN_SYMBOL)
    else
      var b := st[a.name];
      if b.kind != Enumerator && b.kind != Variable then Fatal(NOT_AN_EXPRESSION)
      else if b.expressionValue.None? then Fatal(NO_VALUE)
      else if fuel == 0 then Exhausted
      else Evaluate(b.expressionValue.value, st, fuel - 1)
  }

  /** Parentheses, `+e` and casts are transparent: a cast evaluates its
    * operand whatever the target type. */
  lemma TransparentNodes(e: Node, typeId: string, st: Scope, fuel: nat)
    ensures Evaluate(Parenthesized(e), st, fuel) == Evaluate(e, st, fuel)
    ensures Evaluate(ConstantExpression(e), st, fuel) == Evaluate(e, st, fuel)
    ensures Evaluate(UnaryPlus(e), st, fuel) == Evaluate(e, st, fuel)
    ensures Evaluate(Cast(typeId, e), st, fuel) == Evaluate(e, st, fuel)
  {
  }

  /** The conditional yields the selected branch's outcome, and the other
    * branch does not matter at all (it is never evaluated). */
  lemma ConditionalSelects(c: Node, t: Node, f: Node, other: Node, st: Scope, fuel: nat)
    requires Evaluate(c, st, fuel).Ok?
    ensures IsZero(Evaluate(c, st, fuel).value) ==>
      Evaluate(Conditional(c, t, f), st, fuel) == Evaluate(f, st, fuel) == Evaluate(Conditional(c, other, f), st, fuel)
    ensures !IsZero(Evaluate(c, st, fuel).value) ==>
      Evaluate(Conditional(c, t, f), st, fuel) == Evaluate(t, st, fuel) == Evaluate(Conditional(c, t, other), st, fuel)
  {
    ConditionalBranch(c, t, f, st, fuel);
    ConditionalBranch(c, other, f, st, fuel);
    ConditionalBranch(c, t, other, st, fuel);
  }

  /** One conditional node, unfolded once. */
  lemma ConditionalBranch(c: Node, t: Node, f: Node, st: Scope, fuel: nat)
    requires Evaluate(c, st, fuel).Ok?
    ensures Evaluate(Conditional(c, t, f), st, fuel)
         == if IsZero(Evaluate(c, st, fuel).value) then Evaluate(f, st, fuel) else Evaluate(t, st, fuel)
  {
    assert Evaluate(Conditional(c, t, f), st, fuel) == EvaluateConditional(Conditional(c, t, f), st, fuel);
  }

  /** `l && r` with a non-zero left operand never evaluates `r`: the
    * right value stays uninitialised whatever `r` is. */
  lemma AndSkipsRight(l: Node, r: Node, st: Scope, fuel: nat)
    requires Evaluate(l, st, fuel).Ok? && !IsZero(Evaluate(l, st, fuel).value)
    ensures Evaluate(Binary(LogicalAnd, l, r), st, fuel) == Indeterminate
  {
  }

  /** `l || r` with a zero left operand never evaluates `r`. */
  lemma OrSkipsRight(l: Node, r: Node, st: Scope, fuel: nat)
    requires Evaluate(l, st, fuel).Ok? && IsZero(Evaluate(l, st, fuel).value)
    ensures Evaluate(Binary(LogicalOr, l, r), st, fuel) == Indeterminate
  {
  }

  /** When `&&` does evaluate its right operand (the left one is zero),
    * promotion keeps the zero and the result is the boolean false; when
    * `||` does (the left one is non-zero), the result is true. */
  lemma LogicalResults(op: BinOp, l: Node, r: Node, st: Scope, fuel: nat)
    requires op == LogicalAnd || op == LogicalOr
    requires Evaluate(l, st, fuel).Ok? && Evaluate(r, st, fuel).Ok?
    requires EvaluatesRhs(op, Evaluate(l, st, fuel).value)
    requires var p := PromoteOutcome(Evaluate(l, st, fuel).value, Evaluate(r, st, fuel).value);
      p.Ok? && p.value.lhs.kind == p.value.rhs.kind
    ensures Evaluate(Binary(op, l, r), st, fuel) == Ok(Value(Bool, if op == LogicalOr then 1 else 0))
  {
    PromoteKeepsZero(Evaluate(l, st, fuel).value, Evaluate(r, st, fuel).value);
  }

  /** `z && n`, with `z` evaluating to zero and `n` not declared: the
    * table sends the zero left operand on to the right one, whose lookup
    * is fatal, where C yields false without looking at `n`. */
  lemma AndZeroEvaluatesRhs(z: Node, n: string, st: Scope, fuel: nat)
    requires Evaluate(z, st, fuel).Ok? && IsZero(Evaluate(z, st, fuel).value)
    requires n !in st
    ensures Evaluate(Binary(LogicalAnd, z, Symbol(n)), st, fuel) == Fatal(UNKNOWN_SYMBOL)
    ensures ShortCircuitOperation(Binary(LogicalAnd, z, Symbol(n)), st, fuel) == Ok(BoolValue(false))
  {
    SymbolErrors(n, st, fuel);
    assert Evaluate(Binary(LogicalAnd, z, Symbol(n)), st, fuel)
        == BinaryOperation(Binary(LogicalAnd, z, Symbol(n)), st, fuel);
  }

  /** The literal `0` is such a left operand. */
  lemma ZeroAndUndeclared(n: string, st: Scope, fuel: nat)
    requires n !in st
    ensures Evaluate(Binary(LogicalAnd, DigitNode(0), Symbol(n)), st, fuel) == Fatal(UNKNOWN_SYMBOL)
    ensures ShortCircuitOperation(Binary(LogicalAnd, DigitNode(0), Symbol(n)), st, fuel) == Ok(BoolValue(false))
  {
    DigitLiteral(0, st, fuel);
    AndZeroEvaluatesRhs(DigitNode(0), n, st, fuel);
  }

  /** binary_operation with the short-circuit table C intends: when the
    * left operand decides a logical operator, the right one is not
    * evaluated and the result is that decision; every other case is
    * binary_operation's. */
  function ShortCircuitOperation(a: Node, st: Scope, fuel: nat): (r: Outcome<Value>)
    requires a.Binary?
    ensures r.Ok? ==> r.value.Valid()
  {
    var lhs := Evaluate(a.lhs, st, fuel);
    if !lhs.Ok? then lhs
    else if !IntendedEvaluatesRhs(a.op, lhs.value) then Ok(BoolValue(a.op == LogicalOr))
    else
      var rhs := Evaluate(a.rhs, st, fuel);
      if !rhs.Ok? then rhs
      else
        var p := PromoteOutcome(lhs.value, rhs.value);
        if !p.Ok? then Fatal(UNKNOWN_KIND)
        else if p.value.lhs.kind != p.value.rhs.kind then Fatal(KIND_MISMATCH)
        else if HostUndefined(a.op, p.value.lhs, p.value.rhs) then Undefined("operation undefined in C")
        else Ok(Combine(a.op, p.value.lhs, p.value.rhs))
  }

  /** With the intended table a zero left operand makes `&&` false and a
    * non-zero one makes `||` true, whatever the right operand is, even
    * one whose evaluation would fail. */
  lemma ShortCircuitSkipsRight(op: BinOp, l: Node, r: Node, st: Scope, fuel: nat)
    requires op == LogicalAnd || op == LogicalOr
    requires Evaluate(l, st, fuel).Ok?
    requires IsZero(Evaluate(l, st, fuel).value) <==> op == LogicalAnd
    ensures ShortCircuitOperation(Binary(op, l, r), st, fuel) == Ok(BoolValue(op == LogicalOr))
  {
  }

  /** With the intended table `&&` and `||` follow C's truth tables on
    * every pair of operands that can be promoted to one kind. */
  lemma ShortCircuitTruthTable(op: BinOp, l: Node, r: Node, st: Scope, fuel: nat)
    requires op == LogicalAnd || op == LogicalOr
    requires Evaluate(l, st, fuel).Ok? && Evaluate(r, st, fuel).Ok?
    requires var p := PromoteOutcome(Evaluate(l, st, fuel).value, Evaluate(r, st, fuel).value);
      p.Ok? && p.value.lhs.kind == p.value.rhs.kind
    ensures var x, y := !IsZero(Evaluate(l, st, fuel).value), !IsZero(Evaluate(r, st, fuel).value);
      ShortCircuitOperation(Binary(op, l, r), st, fuel) == Ok(BoolValue(if op == LogicalAnd then x && y else x || y))
  {
    PromoteKeepsZero(Evaluate(l, st, fuel).value, Evaluate(r, st, fuel).value);
  }

  /** Apart from `&&` and `||` the intended table changes nothing. */
  lemma ShortCircuitKeepsStrict(op: BinOp, l: Node, r: Node, st: Scope, fuel: nat)
    requires op != LogicalAnd && op != LogicalOr
    ensures ShortCircuitOperation(Binary(op, l, r), st, fuel) == Evaluate(Binary(op, l, r), st, fuel)
  {
    assert Evaluate(Binary(op, l, r), st, fuel) == BinaryOperation(Binary(op, l, r), st, fuel);
  }

  /** The outcome of a binary operation on evaluated operands: the
    * operands are promoted, and the result has kind bool for the logical
    * and relational operators and the common kind otherwise. */
  lemma BinaryResultKind(op: BinOp, l: Node, r: Node, st: Scope, fuel: nat)
    requires Evaluate(Binary(op, l, r), st, fuel).Ok?
    ensures Evaluate(l, st, fuel).Ok? && Evaluate(r, st, fuel).Ok?
    ensures var p := Promote(Evaluate(l, st, fuel).value, Evaluate(r, st, fuel).value);
      Evaluate(Binary(op, l, r), st, fuel).value.kind == if YieldsBool(op) then Bool else p.lhs.kind
  {
    var lv := Evaluate(l, st, fuel);
    if lv.Ok? && EvaluatesRhs(op, lv.value) {
      var rv := Evaluate(r, st, fuel);
      if rv.Ok? {
        PromoteKeepsZero(lv.value, rv.value);
      }
    }
  }

  /** `!` keeps the operand's kind and swaps zero and non-zero. */
  lemma NotResult(e: Node, st: Scope, fuel: nat)
    requires Evaluate(e, st, fuel).Ok?
    ensures var v := Evaluate(e, st, fuel).value;
      var n := Evaluate(LogicalNot(e), st, fuel);
      n.Ok? && n.value.kind == v.kind && (IsZero(n.value) <==> !IsZero(v))
  {
    var v := Evaluate(e, st, fuel).value;
    assert Evaluate(LogicalNot(e), st, fuel) == NotOperation(LogicalNot(e), st, fuel);
    assert NotOperation(LogicalNot(e), st, fuel) == Ok(NotValue(v));
  }

  /** `~` keeps the kind and is the modular complement. */
  lemma ComplementResult(e: Node, st: Scope, fuel: nat)
    requires Evaluate(e, st, fuel).Ok?
    ensures var v := Evaluate(e, st, fuel).value;
      var c := Evaluate(Complement(e), st, fuel);
      c.Ok? && c.value.kind == v.kind && (c.value.payload + v.payload + 1) % Modulus(v.kind) == 0
  {
    var v := Evaluate(e, st, fuel).value;
    assert Evaluate(Complement(e), st, fuel) == ComplementOperation(Complement(e), st, fuel);
    assert ComplementOperation(Complement(e), st, fuel) == Ok(ComplementValue(v));
    ComplementCongruent(v);
  }

  /** Unary `-` is undefined exactly on the most negative signed value and
    * is otherwise the modular negation in the operand's kind. */
  lemma NegateResult(e: Node, st: Scope, fuel: nat)
    requires Evaluate(e, st, fuel).Ok?
    ensures var v := Evaluate(e, st, fuel).value;
      NegateUndefined(v) <==> Evaluate(Negate(e), st, fuel).Undefined?
    ensures var v := Evaluate(e, st, fuel).value;
      var m := Evaluate(Negate(e), st, fuel);
      !NegateUndefined(v) ==> m.Ok? && m.value.kind == v.kind && (m.value.payload + v.payload) % Modulus(v.kind) == 0
  {
    var v := Evaluate(e, st, fuel).value;
    var m := Evaluate(Negate(e), st, fuel);
    NegateUnfold(e, st, fuel);
    if !NegateUndefined(v) {
      var n := NegateValue(v);
      assert m.value == n;
      NegateCongruent(v);
    }
  }

  /** One negation node, unfolded once. */
  lemma NegateUnfold(e: Node, st: Scope, fuel: nat)
    requires Evaluate(e, st, fuel).Ok?
    ensures var v := Evaluate(e, st, fuel).value;
      Evaluate(Negate(e), st, fuel)
      == if NegateUndefined(v) then Undefined("negation of the most negative value") else Ok(NegateValue(v))
  {
    NegateDelegates(e, st, fuel);
  }

  lemma NegateDelegates(e: Node, st: Scope, fuel: nat)
    ensures Evaluate(Negate(e), st, fuel) == NegateOperation(Negate(e), st, fuel)
  {
  }

  /** Errors of evaluate_symbol, in the order the source checks them. */
  lemma SymbolErrors(name: string, st: Scope, fuel: nat)
    ensures name !in st ==> Evaluate(Symbol(name), st, fuel) == Fatal(UNKNOWN_SYMBOL)
    ensures name in st && st[name].kind != Enumerator && st[name].kind != Variable ==>
      Evaluate(Symbol(name), st, fuel) == Fatal(NOT_AN_EXPRESSION)
    ensures name in st && st[name].kind in {Enumerator, Variable} && st[name].expressionValue.None? ==>
      Evaluate(QualifiedId(name), st, fuel) == Fatal(NO_VALUE)
  {
  }

  /** Every node kind outside the switch stops with internal_error. */
  lemma UnsupportedIsFatal(nodeKind: string, st: Scope, fuel: nat)
    ensures Evaluate(Unsupported(nodeKind), st, fuel).Fatal?
  {
  }

  /** A variable whose cached expression is the literal tree of a value
    * (as template instantiation creates for non-type arguments) evaluates
    * back to that value, save for the inverted boolean literal. */
  lemma InjectedValueRoundTrip(name: string, v: Value, st: Scope, fuel: nat)
    requires v.Valid()
    requires v.kind == Character ==> v.payload != '\\' as int
    requires name in st && st[name] == Binding(Variable, Some(TreeFromLiteralValue(v)))
    ensures Evaluate(Symbol(name), st, fuel + 1) == Ok(ReadBack(v))
  {
    var t := TreeFromLiteralValue(v);
    assert Evaluate(Symbol(name), st, fuel + 1) == Evaluate(t, st, fuel);
    LiteralRoundTrip(v);
  }

  /** A non-exhausted outcome is final: more fuel does not change it. */
  lemma {:induction false} FuelMonotone(a: Node, st: Scope, f1: nat, f2: nat)
    requires f1 <= f2
    requires !Evaluate(a, st, f1).Exhausted?
    ensures Evaluate(a, st, f2) == Evaluate(a, st, f1)
    decreases f1, a
  {
    match a
    case ConstantExpression(e) => FuelMonotone(e, st, f1, f2);
    case Parenthesized(e) => FuelMonotone(e, st, f1, f2);
    case QualifiedId(name) =>
      if name in st && st[name].kind in {Enumerator, Variable} && st[name].expressionValue.Some? && f1 > 0 {
        FuelMonotone(st[name].expressionValue.value, st, f1 - 1, f2 - 1);
      }
    case Symbol(name) =>
      if name in st && st[name].kind in {Enumerator, Variable} && st[name].expressionValue.Some? && f1 > 0 {
        FuelMonotone(st[name].expressionValue.value, st, f1 - 1, f2 - 1);
      }
    case Binary(op, l, r) =>
      FuelMonotone(l, st, f1, f2);
      var lv := Evaluate(l, st, f1);
      if lv.Ok? && EvaluatesRhs(op, lv.value) {
        FuelMonotone(r, st, f1, f2);
      }
    case Cast(_, e) => FuelMonotone(e, st, f1, f2);
    case Conditional(c, t, f) =>
      FuelMonotone(c, st, f1, f2);
      var cv := Evaluate(c, st, f1);
      if cv.Ok? {
        if IsZero(cv.value) {
          FuelMonotone(f, st, f1, f2);
        } else {
          FuelMonotone(t, st, f1, f2);
        }
      }
    case Literal(_, _) =>
    case UnaryPlus(e) => FuelMonotone(e, st, f1, f2);
    case LogicalNot(e) => FuelMonotone(e, st, f1, f2);
    case Negate(e) => FuelMonotone(e, st, f1, f2);
    case Complement(e) => FuelMonotone(e, st, f1, f2);
    case Unsupported(_) =>
  }

  /** A one-digit decimal literal leaf. */
  function DigitNode(d: nat): Node
    requires d < 10
  {
    Literal(DecimalLiteral, [DigitChar(d)])
  }

  /** `a + b * c` over one-digit literals is the signed int a + b * c:
    * the tree, not the text, fixes the grouping, and nothing overflows. */
  lemma DigitArithmetic(a: nat, b: nat, c: nat, st: Scope, fuel: nat)
    requires a < 10 && b < 10 && c < 10
    ensures Evaluate(Binary(Add, DigitNode(a), Binary(Multiply, DigitNode(b), DigitNode(c))), st, fuel)
            == Ok(Value(SignedInt, a + b * c))
  {
    DigitProduct(b, c, st, fuel);
    DigitLiteral(a, st, fuel);
    assert Value(SignedInt, a).Valid() && Value(SignedInt, b * c).Valid();
    SameKindBinary(Add, DigitNode(a), Binary(Multiply, DigitNode(b), DigitNode(c)),
                   Value(SignedInt, a), Value(SignedInt, b * c), st, fuel);
    DigitsAdd(a, b * c);
  }

  lemma DigitsAdd(a: nat, p: nat)
    requires a < 10 && p <= 81
    ensures !HostUndefined(Add, Value(SignedInt, a), Value(SignedInt, p))
    ensures Combine(Add, Value(SignedInt, a), Value(SignedInt, p)) == Value(SignedInt, a + p)
  {
    assert MinOf(SignedInt) <= a + p <= MaxOf(SignedInt);
    assert ArithmeticResult(Add, a, p) == a + p;
    assert Convert(SignedInt, a + p) == a + p;
  }

  /** `b * c` over one-digit literals is the signed int b * c. */
  lemma DigitProduct(b: nat, c: nat, st: Scope, fuel: nat)
    requires b < 10 && c < 10
    ensures 0 <= b * c <= 81
    ensures Evaluate(Binary(Multiply, DigitNode(b), DigitNode(c)), st, fuel) == Ok(Value(SignedInt, b * c))
  {
    SmallProduct(b, c);
    DigitLiteral(b, st, fuel);
    DigitLiteral(c, st, fuel);
    SameKindBinary(Multiply, DigitNode(b), DigitNode(c), Value(SignedInt, b), Value(SignedInt, c), st, fuel);
    DigitsMultiply(b, c);
  }

  lemma SmallProduct(b: nat, c: nat)
    requires b < 10 && c < 10
    ensures 0 <= b * c <= 81
  {
    assert b * c <= 9 * c by { assert (9 - b) * c >= 0; }
  }

  lemma DigitsMultiply(b: nat, c: nat)
    requires b < 10 && c < 10
    ensures !HostUndefined(Multiply, Value(SignedInt, b), Value(SignedInt, c))
    ensures Combine(Multiply, Value(SignedInt, b), Value(SignedInt, c)) == Value(SignedInt, b * c)
  {
    var p := b * c;
    SmallProduct(b, c);
    var vb, vc := Value(SignedInt, b), Value(SignedInt, c);
    assert vb.payload * vc.payload == p;
    assert MinOf(SignedInt) <= p <= MaxOf(SignedInt);
    assert ArithmeticResult(Multiply, b, c) == p;
    assert Convert(SignedInt, p) == p;
  }

  /** A binary node whose operands are both evaluated, to values of one kind. */
  lemma SameKindBinary(op: BinOp, l: Node, r: Node, vl: Value, vr: Value, st: Scope, fuel: nat)
    requires Evaluate(l, st, fuel) == Ok(vl) && Evaluate(r, st, fuel) == Ok(vr)
    requires EvaluatesRhs(op, vl) && vl.kind == vr.kind
    ensures Evaluate(Binary(op, l, r), st, fuel)
         == if HostUndefined(op, vl, vr) then Undefined("operation undefined in C") else Ok(Combine(op, vl, vr))
  {
    PromoteSameKind(vl, vr);
    assert Evaluate(Binary(op, l, r), st, fuel) == BinaryOperation(Binary(op, l, r), st, fuel);
  }

  /** A one-digit decimal literal is that signed int. */
  lemma DigitLiteral(d: nat, st: Scope, fuel: nat)
    requires d < 10
    ensures Evaluate(DigitNode(d), st, fuel) == Ok(Value(SignedInt, d))
  {
    var t := [DigitChar(d)];
    assert CreateValueFromLiteral(DecimalLiteral, t) == Ok(Value(SignedInt, d)) by {
      assert DecimalText(d) == t;
      SignedIntRoundTrip(d);
    }
  }
}
