/**
 * The part of the C/C++ syntax tree that the constant-expression evaluator
 * inspects, and the symbol-table view it needs: the name a symbol or
 * qualified id resolves to, with that entry's kind and cached expression.
 */
module Syntax {
  import opened Wrappers
  import opened Operators

  datatype LiteralKind = DecimalLiteral | OctalLiteral | HexadecimalLiteral | CharacterLiteral | BooleanLiteral

  /** One node kind per case of evaluate_constant_expression's switch;
    * `Unsupported` stands for every other node kind (a function call, a
    * floating literal, ...).  Literal leaves carry their source text. */
  datatype Node =
    | ConstantExpression(expression: Node)
    | Parenthesized(expression: Node)
    | QualifiedId(name: string)
    | Symbol(name: string)
    | Binary(op: BinOp, lhs: Node, rhs: Node)
    | Cast(typeId: string, expression: Node)
    | Conditional(condition: Node, ifTrue: Node, ifFalse: Node)
    | Literal(literalKind: LiteralKind, text: string)
    | UnaryPlus(expression: Node)
    | LogicalNot(expression: Node)
    | Negate(expression: Node)
    | Complement(expression: Node)
    | Unsupported(nodeKind: string)

  datatype SymbolKind = Enumerator | Variable | Typedef | Class | Function | Template | OtherKind

  /** What a name lookup yields: the first entry found, its kind and the
    * expression cached in it (expression_value, possibly NULL). */
  datatype Binding = Binding(kind: SymbolKind, expressionValue: Option<Node>)

  /** The result of query_id_expression for every name: absent names are
    * unknown symbols. */
  type Scope = map<string, Binding>
}
