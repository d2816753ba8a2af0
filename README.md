# Constant folding, template-argument injection and PCFG nodes of Mercurium

This project models four parts of the Mercurium (mcxx) C/C++ source-to-source compiler in Dafny and proves properties of them.

- **The constant-expression evaluator** (`src/cxx-cexpr.c`).
  - The tagged `literal_value_t` value with its six kinds is `Values.Value`. It uses the LP64 widths: int is 32 bits, long is 64 bits, char is a signed 8-bit field.
  - `promote_values` is `Promotion`: the "usual arithmetic conversions" of clause 5, paragraph 9 of ISO/IEC 14882:2003, as the function actually applies them.
  - The per-operator functions and the `binary_ops` table are `Operators`.
  - The recursive interpreter `evaluate_constant_expression` is `Evaluator`.
  - The literal parser `create_value_from_literal` and the reifier `tree_from_literal_value` are `Literals`. They form a parse/print pair, and the round trip is proved.
  - The constant-expression syntax tree is `Syntax.Node`. The symbol table is a map from names to entries.
- **Template-argument injection** (`src/frontend/cxx-instantiation.c`).
  - This is the consumer of the evaluator. It looks up template parameters, checks argument and parameter kinds, and injects one symbol per parameter. A non-type argument is folded by the evaluator and reified back into a literal.
  - It also fixes the order in which a class instantiation builds its parts, and the guards and the save/restore of the function path.
  - Symbols whose fields the code updates are objects (`Instantiation.Entry`). The global front-end state is a `Frontend` object.
  - Calls into the rest of the front end are events in a ghost trace: `solve_class_template`, `build_scope_*`, `ast_copy_for_instantiation` and `finish_class_type`.
- **Control-flow-graph nodes** (`src/tl/analysis/data_flow/pcfg/tl-node.cpp`).
  - `PcfgNode.Node` keeps the node's id, its entry and exit edge lists, and the attributes of its key/value store as optional typed fields (`Attributes`).
  - Its methods append, erase and look up edges, run the kind-guarded setters and update the data-flow maps and sets.
- **Control-flow-graph edges** (`src/tl/analysis/pcfg/tl-edge.cpp`).
  - `PcfgEdge.Edge` keeps its two ends and its optional attributes.
  - `get_label` renders the label, with the CASE loop proved against a join specification.

How failures are represented: an `internal_error` (or an uncaught C++ exception) is `Fatal(message)`. Behaviour the C language leaves undefined on the host is `Undefined(reason)`. Reading a variable that was never initialised is `Indeterminate`.

## Where the code differs from its comments

The model follows the code in each of these cases.

- A boolean literal is 1 when its text is exactly `false` and 0 otherwise. `tree_from_literal_value` prints `false` for 0, so a boolean comes back negated (`Literals.ReadBack`).
- `binary_ops` marks `&&` to evaluate its right operand when the left is zero, and `||` when it is non-zero. This is the inverse of short-circuiting.
  - A skipped right operand is never evaluated.
  - The uninitialised `val_rhs` is then promoted and combined. The model stops there with `Indeterminate`.
  - `Evaluate` keeps the table as written. The corrected operation is `ShortCircuitOperation` (see "## Findings").
- `promote_values` tests the original kinds after writing promoted copies, with these effects:
  - A signed long / unsigned long pair ends with swapped kinds, so `binary_operation` fails with "Both types should be the same".
  - A char or bool against an unsigned int also ends with mismatched kinds.
  - A char or bool against a long kind reaches an `internal_error` in a `default:` branch.
- `cast_expression` ignores the target type.
- `strtol`/`strtoul`: out-of-range lexemes saturate or wrap exactly as the C library does, rather than being assumed in range.
  - A not-long unsigned literal stores `strtol`'s result into an `unsigned int`.
  - A plain int literal stores `strtoul`'s result into an `int`.
  - Both conversions are modelled modulo 2^32.

## Model

| member | source | states |
|---|---|---|
| Values.Convert | src/cxx-cexpr.c:355-493 | a conversion between the union's fields lands in the target field's range and keeps any value already in range |
| Values.ConvertCongruent | src/cxx-cexpr.c:355-493 | a converted value is congruent to its input modulo 2^width |
| Values.ConvertUnique | src/cxx-cexpr.c:355-493 | the in-range value congruent to the input is the only result of a conversion |
| Values.IsZero | src/cxx-cexpr.c:194-213 | a value is zero exactly when it is the zero of its own kind, whatever the kind |
| Values.Zero | src/cxx-cexpr.c:533-541 | literal_value_zero is a signed int equal to zero |
| Values.MinusOne | src/cxx-cexpr.c:543-551 | literal_value_minus_one is a signed int that is not zero |
| Values.Increment | src/cxx-cexpr.c:553-579 | incrementing keeps the kind, is fatal exactly on bool, is undefined exactly at the signed maximum, and otherwise gives the successor modulo the field |
| Values.IncrementMinusOneIsZero | src/cxx-cexpr.c:533-579 | incrementing minus one gives zero |
| Values.IncrementWraps | src/cxx-cexpr.c:553-579 | the largest unsigned or char value increments to the smallest |
| Promotion.Promote | src/cxx-cexpr.c:317-493 | promotion keeps both operands inside their fields |
| Promotion.ConvertOther | src/cxx-cexpr.c:362-395 | the conversion switch to a long kind accepts only the four integer kinds; any other is fatal with "Unknown literal value type" |
| Promotion.StoredThroughUnsignedInt | src/cxx-cexpr.c:338-349 | a char written to the unsigned int member and read back as int keeps its value |
| Promotion.PromoteValues | src/cxx-cexpr.c:317-493 | the in-place two-slot promotion produces exactly the rule table's outcome, including the fatal cases |
| Promotion.ConversionRules | src/cxx-cexpr.c:355-493 | applied to the operands left by the first loop, the rules that test the original kinds give the rule table's outcome, fatal cases included |
| Promotion.PromoteSameKind | src/cxx-cexpr.c:320-325 | operands of one kind pass through unchanged |
| Promotion.PromoteIntegerKinds | src/cxx-cexpr.c:355-493 | among the integer kinds (except the long pair), unsigned long absorbs all, then signed long, then unsigned int; each conversion is modulo 2^width |
| Promotion.PromoteWideningKeepsValue | src/cxx-cexpr.c:400-458 | an int or unsigned int meeting a signed long keeps its value |
| Promotion.PromoteLongPairMismatch | src/cxx-cexpr.c:355-475 | signed long against unsigned long ends with the two kinds swapped |
| Promotion.PromoteSmallKinds | src/cxx-cexpr.c:333-493 | char and bool become signed int with their value kept; with int, char or bool both end as int, with unsigned int the kinds differ, with a long kind it is fatal |
| Promotion.PromoteKindsAgree | src/cxx-cexpr.c:317-493 | after promotion the kinds agree exactly when the pair is not the long pair and not a char/bool against unsigned int |
| Promotion.ConvertKeepsZero | src/cxx-cexpr.c:355-493 | widening keeps a value zero or non-zero |
| Promotion.PromoteKeepsZero | src/cxx-cexpr.c:317-493 | promotion never changes whether an operand is zero |
| Operators.BoolValue | src/cxx-cexpr.c:728-757 | the logical and comparison results are a valid bool that is zero exactly when false |
| Operators.InField | src/cxx-cexpr.c:1126-1214 | an arithmetic result is reduced into the field of its kind |
| Operators.Combine | src/cxx-cexpr.c:728-1274 | each binary operator gives a valid value whose kind is bool for logical and comparison operators and the operands' kind otherwise |
| Operators.NotValue | src/cxx-cexpr.c:633-661 | `!` keeps the kind and yields 1 exactly when the operand is zero, else 0 |
| Operators.NegateValue | src/cxx-cexpr.c:663-691 | unary `-` keeps the kind and stays in the field |
| Operators.NegateCongruent | src/cxx-cexpr.c:663-691 | unary `-` gives the additive inverse modulo the field size |
| Operators.ComplementValue | src/cxx-cexpr.c:693-721 | `~` keeps the kind and stays in the field |
| Operators.ComplementCongruent | src/cxx-cexpr.c:693-721 | `~` gives -x-1 modulo the field size |
| Operators.SignedArithmeticIsExact | src/cxx-cexpr.c:1126-1214 | defined signed int and long `+ - *` give the exact result |
| Operators.ArithmeticWraps | src/cxx-cexpr.c:1126-1214 | `+ - *` results are congruent to the exact result modulo the field |
| Operators.TruncDivision | src/cxx-cexpr.c:1216-1274 | C's truncating `/` and `%` satisfy (x/y)*y + x%y == x |
| Operators.QuotientInRange | src/cxx-cexpr.c:1216-1244 | a defined quotient of field values stays in the field |
| Operators.DivisionIdentity | src/cxx-cexpr.c:1216-1274 | the evaluated `/` and `%` satisfy C's division identity, with the remainder smaller than the divisor and signed like the dividend |
| Operators.ComplementInvolutive | src/cxx-cexpr.c:693-721 | `~~x == x` |
| Operators.NegateInvolutive | src/cxx-cexpr.c:663-691 | `--x == x` where both negations are defined |
| Operators.ComparisonDuality | src/cxx-cexpr.c:880-1064 | `!=` is the negation of `==`, `<` is `>` swapped, `<=` is the negation of `>` |
| Literals.ScanLength | src/cxx-cexpr.c:290-313 | the suffix scan takes at most three trailing U/L letters and stops at the first other character |
| Literals.ScannedSuffix | src/cxx-cexpr.c:290-313 | the scanned suffix is a tail of the text of at most three U/L letters, and no longer one could be taken |
| Literals.SuffixStep | src/cxx-cexpr.c:298-312 | one more suffix letter adds one L count or sets the unsigned flag |
| Literals.GatherIntegerLiteralSuffix | src/cxx-cexpr.c:290-313 | the backwards scanning loop counts the L letters and records any U in the scanned suffix |
| Literals.Strtol | src/cxx-cexpr.c:240-251 | strtol with base 0 yields a value in the range of long |
| Literals.Strtoul | src/cxx-cexpr.c:234-256 | strtoul with base 0 yields a value in the range of unsigned long |
| Literals.CreateValueFromLiteral | src/cxx-cexpr.c:216-288 | a literal yields a valid value, or is fatal, and only a character literal can be fatal |
| Literals.TreeFromLiteralValue | src/cxx-cexpr.c:581-626 | the reified leaf is a decimal literal for the four integer kinds, a character literal for char and a boolean literal for bool |
| Literals.CountLongsPositive | src/cxx-cexpr.c:231 | the literal is long exactly when the scanned suffix has an L |
| Literals.IntegerLiteralKind | src/cxx-cexpr.c:226-258 | an integer literal's kind comes from its suffix: any L makes it long, any U unsigned |
| Literals.UnsignedLongLiteralExample | src/cxx-cexpr.c:226-258 | "10UL" is unsigned long 10 |
| Literals.OctalLiteralExample | src/cxx-cexpr.c:226-258 | "010" is signed int 8 |
| Literals.HexadecimalLiteralExample | src/cxx-cexpr.c:226-258 | "0x10" is signed int 16 |
| Literals.BooleanLiteralInverted | src/cxx-cexpr.c:259-262 | a boolean literal is 1 exactly when its text is "false", else 0 |
| Literals.CharacterLiteralCases | src/cxx-cexpr.c:263-281 | a wide character literal is fatal, an escape is fatal, any other `'c'` yields c |
| Literals.IntegerLiteralParts | src/cxx-cexpr.c:231-257 | the four suffix cases store strtoul or strtol results into the field of the chosen kind |
| Literals.SignedIntRoundTrip | src/cxx-cexpr.c:590-592 | the decimal text of any int reads back as that int |
| Literals.SignedLongRoundTrip | src/cxx-cexpr.c:594-596 | the text printed for any long reads back as that long |
| Literals.UnsignedIntRoundTrip | src/cxx-cexpr.c:598-600 | the text printed for any unsigned int reads back as it |
| Literals.UnsignedLongRoundTrip | src/cxx-cexpr.c:602-604 | the text printed for any unsigned long reads back as it |
| Literals.LiteralRoundTrip | src/cxx-cexpr.c:581-626 | reading back the literal printed for a value gives the value, negated for bool, for every valid value except the backslash character |
| Evaluator.Evaluate | src/cxx-cexpr.c:84-135 | a successful evaluation yields a value that fits its kind, and a literal leaf evaluates to create_value_from_literal of its text |
| Evaluator.BinaryOperation | src/cxx-cexpr.c:138-178 | a successful binary operation yields a valid value |
| Evaluator.EvaluateConditional | src/cxx-cexpr.c:181-193 | a successful conditional yields a valid value |
| Evaluator.NotOperation | src/cxx-cexpr.c:633-661 | a successful `!` yields a valid value |
| Evaluator.NegateOperation | src/cxx-cexpr.c:663-691 | a successful unary `-` yields a valid value |
| Evaluator.ComplementOperation | src/cxx-cexpr.c:693-721 | a successful `~` yields a valid value |
| Evaluator.EvaluateSymbol | src/cxx-cexpr.c:501-531 | a successful symbol evaluation yields a valid value |
| Evaluator.TransparentNodes | src/cxx-cexpr.c:84-135 | parentheses, constant-expression wrappers, unary `+` and casts evaluate to their operand |
| Evaluator.ConditionalSelects | src/cxx-cexpr.c:181-193 | `?:` evaluates to the false branch iff the condition is zero, independent of the other branch |
| Evaluator.AndSkipsRight | src/cxx-cexpr.c:146-156 | logical and with a non-zero left operand skips its right operand and is indeterminate, whatever that operand is |
| Evaluator.OrSkipsRight | src/cxx-cexpr.c:146-156 | logical or with a zero left operand skips its right operand and is indeterminate |
| Evaluator.LogicalResults | src/cxx-cexpr.c:138-178 | when the right operand is evaluated, logical and yields bool 0 and logical or yields bool 1 |
| Evaluator.AndZeroEvaluatesRhs | src/cxx-cexpr.c:63-64 | as written, `z && n` with `z` zero and `n` undeclared is fatal, because the table evaluates the right operand; the intended operation yields false |
| Evaluator.ZeroAndUndeclared | src/cxx-cexpr.c:63-64 | the same discrepancy for the literal `0 && n` |
| Operators.BinaryOps | src/cxx-cexpr.c:61-81 | as written, logical or and logical and are the only non-strict entries: logical and evaluates its right operand if the left one is zero, logical or if it is non-zero; every other operator is strict |
| Operators.EvaluatesRhs | src/cxx-cexpr.c:61-81 | the right operand is evaluated for logical and exactly when the left one is zero, for logical or exactly when it is non-zero, and always for the other operators |
| Operators.IntendedEvaluatesRhs | src/cxx-cexpr.c:34-35 | the short-circuit decision C intends: the table's decision for every operator, inverted for logical and and logical or |
| Evaluator.ShortCircuitSkipsRight | src/cxx-cexpr.c:138-178 | with the intended table, a zero left operand makes logical and false and a non-zero one makes logical or true, whatever the right operand is |
| Evaluator.ShortCircuitTruthTable | src/cxx-cexpr.c:138-178 | with the intended table, logical and and logical or follow C's truth tables on every pair of operands promotable to one kind |
| Evaluator.ShortCircuitKeepsStrict | src/cxx-cexpr.c:138-178 | the intended table changes nothing for the strict operators |
| Evaluator.BinaryResultKind | src/cxx-cexpr.c:138-178 | a successful binary operation has both operands successful, and is bool for logical and comparison operators, else the promoted kind |
| Evaluator.NotResult | src/cxx-cexpr.c:633-661 | `!e` keeps e's kind and is zero exactly when e is not |
| Evaluator.ComplementResult | src/cxx-cexpr.c:693-721 | `~e` keeps e's kind and is -e-1 in the field |
| Evaluator.NegateResult | src/cxx-cexpr.c:663-691 | `-e` is undefined exactly at the signed minimum, otherwise keeps the kind and gives the inverse |
| Evaluator.SymbolErrors | src/cxx-cexpr.c:501-531 | an unknown name, a symbol that is not an enumerator or variable, and one without a value are fatal |
| Evaluator.UnsupportedIsFatal | src/cxx-cexpr.c:132-134 | any other node kind is fatal |
| Evaluator.InjectedValueRoundTrip | src/cxx-cexpr.c:501-531 | a variable whose value is the reified literal of v evaluates back to v (negated for bool) |
| Evaluator.FuelMonotone | src/cxx-cexpr.c:84-135 | an evaluation that completes within a dereference bound gives the same result under any larger bound |
| Evaluator.DigitArithmetic | src/cxx-cexpr.c:138-178 | `a + b * c` over one-digit decimal literals is the signed int a + b * c |
| Evaluator.DigitProduct | src/cxx-cexpr.c:138-178 | `b * c` over one-digit decimal literals is the signed int b * c |
| Evaluator.DigitLiteral | src/cxx-cexpr.c:118-123 | a one-digit decimal literal is that signed int |
| Instantiation.Entry.constructor | src/frontend/cxx-instantiation.c:59-83 | a symbol entry holds the given name, kind, context, flags, parameters, arguments and state |
| Instantiation.NameFrom | src/frontend/cxx-instantiation.c:37-57 | the parameter search either finds a name or is fatal with "Not found template parameter" |
| Instantiation.NameFromFirstMatch | src/frontend/cxx-instantiation.c:37-57 | the search succeeds iff some parameter has that nesting and position, and then returns the name of the first such |
| Instantiation.GetNameOfTemplateParameter | src/frontend/cxx-instantiation.c:37-57 | the linear search loop returns exactly NameFrom's result |
| Instantiation.Folded | src/frontend/cxx-instantiation.c:152-158 | a non-type argument folds iff its expression evaluates, into the reified literal of its value |
| Instantiation.InjectedSymbolShape | src/frontend/cxx-instantiation.c:102-168 | each injected symbol carries the parameter's name, is flagged as template argument, is a typedef, template or variable as the parameter's kind asks, and only a non-type parameter gets a value; an unknown kind is fatal |
| Instantiation.NontypeArgumentRoundTrip | src/frontend/cxx-instantiation.c:144-159 | evaluating an injected non-type parameter later gives back its argument's value (negated for bool) |
| Instantiation.Collect | src/frontend/cxx-instantiation.c:102-168 | a run of steps succeeds iff every step does, with one result per step in order |
| Instantiation.CollectFirstFailure | src/frontend/cxx-instantiation.c:102-168 | a run stops with the first failing step's failure |
| Instantiation.CollectStep | src/frontend/cxx-instantiation.c:102-168 | one more successful step appends its result |
| Instantiation.DeductionSteps | src/frontend/cxx-instantiation.c:102-168 | one step per deduction, each requiring exactly one deduced argument |
| Instantiation.InjectDeductions | src/frontend/cxx-instantiation.c:102-168 | the injection loop over the deductions yields exactly the collected steps |
| Instantiation.ArgumentSteps | src/frontend/cxx-instantiation.c:345-440 | one step per parameter, pairing it with the argument of the same index |
| Instantiation.ArgumentsInjectedShape | src/frontend/cxx-instantiation.c:319-444 | argument injection succeeds iff the counts agree, every kind is known and agrees with its argument and every value folds; it appends one symbol per parameter in order and keeps the rest of the context |
| Instantiation.InjectTemplateArguments | src/frontend/cxx-instantiation.c:345-440 | the loop over parameters and arguments yields exactly ArgumentsInjected |
| Instantiation.ClassTemplateContext | src/frontend/cxx-instantiation.c:84-89 | the class context drops DF_TEMPLATE and DF_EXPLICIT_SPECIALIZATION, keeps the other flags, and has nesting 0 and no template parameters |
| Instantiation.InjectedClassName | src/frontend/cxx-instantiation.c:190-205 | the injected class name is a class symbol of that name that is not printed, is marked injected and refers to the class |
| Instantiation.ClassEventOrder | src/frontend/cxx-instantiation.c:182-255 | the base clause comes before the class name injection, completeness before the members, the members (with DF_INSTANTIATING) before `defined`, finishing the class last, and members are built exactly when the template has a body |
| Instantiation.Frontend.constructor | src/frontend/cxx-instantiation.c:446-455 | the front end starts with the given status and ambiguity flag and an empty trace |
| Instantiation.Frontend.BuildSpecializedClass | src/frontend/cxx-instantiation.c:182-255 | the class specifier is built in the new class context: the context's scope holds exactly the injected class name, the class ends complete, defined and with that inner context, and the trace gains the class events in order |
| Instantiation.Frontend.InstantiateSpecializedTemplateClass | src/frontend/cxx-instantiation.c:59-256 | on success the class is complete, defined and has the inner context, and the trace gains the class events in order; on failure nothing changes |
| Instantiation.Frontend.InstantiateTemplateClass | src/frontend/cxx-instantiation.c:263-317 | not a class or typedef, an ineligible class, and no selected template are fatal; for an eligible class with a selected template, solve_class_template is called and the result is exactly the injected deductions' inner context, or the first injection failure; every failure leaves both entries unchanged, and the trace gains only the solve_class_template call; on success the entry that is not the named class (the typedef itself, or the unused resolved entry of a class) is unchanged |
| Instantiation.Frontend.GetInstantiationContext | src/frontend/cxx-instantiation.c:319-444 | an entry that is not a specialised function is fatal; otherwise the arguments are injected against the given parameters, or the type's own when none are given |
| Instantiation.Frontend.InstantiateTemplateFunction | src/frontend/cxx-instantiation.c:446-633 | while checking ambiguity nothing is done; a non-function is fatal and so is one that is not a specialised function; an undefined primary or an already defined entry is left alone; otherwise an injection failure is that failure and a primary without a definition tree is fatal, and it instantiates exactly when the arguments inject and the primary has a body, building the definition in the injected context plus DF_TEMPLATE and DF_EXPLICIT_SPECIALIZATION with test status 0; the test status is always restored and the trace grows only on instantiation |
| PcfgEdge.Rendered | src/tl/analysis/pcfg/tl-edge.cpp:145-156 | one rendered item per CASE label: "default" for a null label |
| PcfgEdge.AccumulatedJoin | src/tl/analysis/pcfg/tl-edge.cpp:141-158 | what the CASE loop accumulates is ", " followed by the labels joined by ", " |
| PcfgEdge.FixedLabels | src/tl/analysis/pcfg/tl-edge.cpp:125-139 | TRUE edges are "TRUE", FALSE edges "FALSE", ALWAYS, UNCLASSIFIED and untyped edges "" |
| PcfgEdge.CaseLabel | src/tl/analysis/pcfg/tl-edge.cpp:141-158 | a CASE label is its first label alone, and each further label adds ", " and its rendering |
| PcfgEdge.CatchLabel | src/tl/analysis/pcfg/tl-edge.cpp:160-167 | a CATCH label is "..." for a null first label, else the symbol's name |
| PcfgEdge.Edge.constructor | src/tl/analysis/pcfg/tl-edge.cpp:34-42 | a new edge holds its ends, type, label and both flags |
| PcfgEdge.Edge.Type | src/tl/analysis/pcfg/tl-edge.cpp:54-64 | an edge without a stored type is UNCLASSIFIED |
| PcfgEdge.Edge.TypeName | src/tl/analysis/pcfg/tl-edge.cpp:66-97 | the type name is empty exactly when no type is stored |
| PcfgEdge.Edge.IsOfType | src/tl/analysis/pcfg/tl-edge.cpp:184-217 | the is_*_edge tests read the stored type and compare it; without one they are fatal |
| PcfgEdge.Edge.IsBackEdge | src/tl/analysis/pcfg/tl-edge.cpp:99-110 | the stored flag, never fatal on a constructed edge |
| PcfgEdge.Edge.IsTaskEdge | src/tl/analysis/pcfg/tl-edge.cpp:112-123 | the stored flag, never fatal on a constructed edge |
| PcfgEdge.Edge.GetLabel | src/tl/analysis/pcfg/tl-edge.cpp:125-172 | the label loop gives exactly the specified label, including its failures |
| PcfgEdge.Edge.SetLabel | src/tl/analysis/pcfg/tl-edge.cpp:174-177 | the label becomes the given text and nothing else changes |
| PcfgEdge.Edge.SetTrueEdge | src/tl/analysis/pcfg/tl-edge.cpp:179-182 | afterwards the edge is a TRUE edge labelled "TRUE" |
| PcfgEdge.Edge.SetExecutable | src/tl/analysis/pcfg/tl-edge.cpp:223-226 | afterwards is_executable returns the value set |
| PcfgEdge.Edge.IsExecutable | src/tl/analysis/pcfg/tl-edge.cpp:228-239 | fatal until a value is set, then the last value set |
| PcfgNode.Sources | src/tl/analysis/data_flow/pcfg/tl-node.cpp:220-232 | the parents are the edges' sources in edge order |
| PcfgNode.Targets | src/tl/analysis/data_flow/pcfg/tl-node.cpp:289-301 | the children are the edges' targets in edge order |
| PcfgNode.FirstIndex | src/tl/analysis/data_flow/pcfg/tl-node.cpp:92-135 | the position of the first occurrence of a node, and the length exactly when there is none |
| PcfgNode.EraseFirstRemovesOne | src/tl/analysis/data_flow/pcfg/tl-node.cpp:92-135 | erasing removes exactly the first matching edge and keeps the order of the rest; with no match nothing changes |
| PcfgNode.Merged | src/tl/analysis/data_flow/pcfg/tl-node.cpp:1752-1765 | the merged map has the keys of both and the incoming definitions win |
| PcfgNode.Renamed | src/tl/analysis/data_flow/pcfg/tl-node.cpp:1767-1786 | renaming moves the definition to the new key and keeps the others; without the old key the map is unchanged |
| PcfgNode.WithPurged | src/tl/analysis/data_flow/pcfg/tl-node.cpp:1280-1303 | a set update adds exactly the incoming symbols the old set does not englobe |
| PcfgNode.WithSymbol | src/tl/analysis/data_flow/pcfg/tl-node.cpp:1265-1278 | one symbol is added unless the set englobes it, and then nothing is stored |
| PcfgNode.IdCounter.constructor | src/tl/analysis/data_flow/pcfg/tl-node.cpp:55-57 | a counter starts at the given value |
| PcfgNode.Node.constructor | src/tl/analysis/data_flow/pcfg/tl-node.cpp:38-42 | the default node has id -1, type UNCLASSIFIED, no edges and no attributes, and is an empty node |
| PcfgNode.Node.Counted | src/tl/analysis/data_flow/pcfg/tl-node.cpp:44-59 | the node takes the counter's next id; a graph node also creates an entry node with the id after that and an exit node with id -1 |
| PcfgNode.Node.WithStatements | src/tl/analysis/data_flow/pcfg/tl-node.cpp:61-72 | the node takes the next id and stores the statements |
| PcfgNode.Node.WithStatement | src/tl/analysis/data_flow/pcfg/tl-node.cpp:74-85 | the node takes the next id and stores a one-statement list |
| PcfgNode.Node.SameNode | src/tl/analysis/data_flow/pcfg/tl-node.cpp:87-90 | two nodes are equal when their ids are; every node is equal to itself |
| PcfgNode.Node.IsEmptyNode | src/tl/analysis/data_flow/pcfg/tl-node.cpp:177-180 | an empty node is unnumbered (negative id) and not a graph node; the default constructor makes one |
| PcfgNode.Node.IsConnected | src/tl/analysis/data_flow/pcfg/tl-node.cpp:359-362 | connected exactly when the node has at least one entry or exit edge; the default constructor makes an unconnected node and each edge setter a connected one |
| PcfgNode.Node.SetId | src/tl/analysis/data_flow/pcfg/tl-node.cpp:142-145 | the id becomes the given one |
| PcfgNode.Node.SetEntryEdge | src/tl/analysis/data_flow/pcfg/tl-node.cpp:187-190 | appends the edge; the node is then connected |
| PcfgNode.Node.SetExitEdge | src/tl/analysis/data_flow/pcfg/tl-node.cpp:239-242 | appends the edge; the node is then connected |
| PcfgNode.Node.EraseEntryEdge | src/tl/analysis/data_flow/pcfg/tl-node.cpp:92-112 | the loop removes exactly the first entry edge from that source |
| PcfgNode.Node.EraseExitEdge | src/tl/analysis/data_flow/pcfg/tl-node.cpp:114-135 | the loop removes exactly the first exit edge to that target |
| PcfgNode.Node.GetParents | src/tl/analysis/data_flow/pcfg/tl-node.cpp:220-232 | the loop returns the sources of the entry edges in order |
| PcfgNode.Node.GetChildren | src/tl/analysis/data_flow/pcfg/tl-node.cpp:289-301 | the loop returns the targets of the exit edges in order |
| PcfgNode.Node.GetEntryEdgeTypes | src/tl/analysis/data_flow/pcfg/tl-node.cpp:192-204 | one type per entry edge, in order |
| PcfgNode.Node.GetExitEdgeTypes | src/tl/analysis/data_flow/pcfg/tl-node.cpp:244-256 | one type per exit edge, in order |
| PcfgNode.Node.GetEntryEdgeLabels | src/tl/analysis/data_flow/pcfg/tl-node.cpp:206-218 | one label per entry edge, in order |
| PcfgNode.Node.GetExitEdgeLabels | src/tl/analysis/data_flow/pcfg/tl-node.cpp:258-270 | one label per exit edge, in order |
| PcfgNode.Node.GetExitEdge | src/tl/analysis/data_flow/pcfg/tl-node.cpp:272-287 | the first exit edge whose target has the given node's id, or null exactly when there is none |
| PcfgNode.Node.HasChild | src/tl/analysis/data_flow/pcfg/tl-node.cpp:364-379 | true iff some exit edge reaches a node with that id |
| PcfgNode.Node.HasParent | src/tl/analysis/data_flow/pcfg/tl-node.cpp:381-396 | true iff some entry edge comes from a node with that id |
| PcfgNode.Node.GraphTypeOf | src/tl/analysis/data_flow/pcfg/tl-node.cpp:751-762 | only a graph node with a stored graph type has one; otherwise fatal |
| PcfgNode.Node.IsLoopNode | src/tl/analysis/data_flow/pcfg/tl-node.cpp:328-331 | a loop node is a graph node of type LOOP; a basic node is not one |
| PcfgNode.Node.IsTaskNode | src/tl/analysis/data_flow/pcfg/tl-node.cpp:354-357 | a task node is a graph node of type TASK; a basic node is not one |
| PcfgNode.Node.SetGraphType | src/tl/analysis/data_flow/pcfg/tl-node.cpp:764-775 | only a graph node takes a graph type; otherwise fatal and unchanged |
| PcfgNode.Node.GraphEntryNode | src/tl/analysis/data_flow/pcfg/tl-node.cpp:577-588 | only a graph node has an entry node |
| PcfgNode.Node.GraphExitNode | src/tl/analysis/data_flow/pcfg/tl-node.cpp:608-619 | only a graph node has an exit node |
| PcfgNode.Node.SetGraphEntryNode | src/tl/analysis/data_flow/pcfg/tl-node.cpp:590-606 | succeeds iff the new node is an entry node and this one a graph node |
| PcfgNode.Node.SetGraphExitNode | src/tl/analysis/data_flow/pcfg/tl-node.cpp:621-637 | succeeds iff the new node is an exit node and this one a graph node |
| PcfgNode.Node.SetOuterNode | src/tl/analysis/data_flow/pcfg/tl-node.cpp:649-660 | succeeds iff the enclosing node is a graph node, which get_outer_node then returns |
| PcfgNode.Node.OuterNode | src/tl/analysis/data_flow/pcfg/tl-node.cpp:639-647 | the stored enclosing node, or none |
| PcfgNode.Node.GraphTypeName | src/tl/analysis/data_flow/pcfg/tl-node.cpp:544-575 | fatal exactly when no graph type is stored, whatever the node kind; otherwise the type's non-empty name, agreeing with get_graph_type on a graph node |
| PcfgNode.GraphTypeNamesDistinct | src/tl/analysis/data_flow/pcfg/tl-node.cpp:549-566 | two graph types share a name only if they are the same type |
| PcfgNode.Node.Statements | src/tl/analysis/data_flow/pcfg/tl-node.cpp:695-703 | the stored statements, empty when none are stored |
| PcfgNode.Node.SetStatements | src/tl/analysis/data_flow/pcfg/tl-node.cpp:705-718 | succeeds exactly on normal, function call, labeled, break, continue and goto nodes; otherwise fatal and unchanged |
| PcfgNode.Node.Label | src/tl/analysis/data_flow/pcfg/tl-node.cpp:923-935 | only goto and labeled nodes have a label |
| PcfgNode.Node.SetLabel | src/tl/analysis/data_flow/pcfg/tl-node.cpp:937-949 | succeeds exactly on goto and labeled nodes, and the label reads back |
| PcfgNode.Node.LoopNodeType | src/tl/analysis/data_flow/pcfg/tl-node.cpp:777-796 | only a loop node with a stored loop type has one |
| PcfgNode.Node.SetLoopNodeType | src/tl/analysis/data_flow/pcfg/tl-node.cpp:798-817 | succeeds exactly on loop nodes, and the loop type reads back |
| PcfgNode.Node.LatticeValues | src/tl/analysis/data_flow/pcfg/tl-node.cpp:824-840 | a basic node's lattice values, empty when none are stored; fatal on a graph node |
| PcfgNode.Node.SetLatticeVal | src/tl/analysis/data_flow/pcfg/tl-node.cpp:842-860 | appends a value to a basic node's list; fatal and unchanged on a graph node |
| PcfgNode.Node.InductionVariables | src/tl/analysis/data_flow/pcfg/tl-node.cpp:868-890 | only loop nodes have induction variables, empty when none are stored |
| PcfgNode.Node.SetInductionVariable | src/tl/analysis/data_flow/pcfg/tl-node.cpp:892-921 | on a loop node without that variable it adds exactly that binding; a variable already present is fatal |
| PcfgNode.Node.ReachingDefinitions | src/tl/analysis/data_flow/pcfg/tl-node.cpp:1728-1739 | the stored map, empty when none is stored |
| PcfgNode.Node.SetReachingDefinition | src/tl/analysis/data_flow/pcfg/tl-node.cpp:1741-1750 | overwrites one variable's definition and keeps the others |
| PcfgNode.Node.SetReachingDefinitionList | src/tl/analysis/data_flow/pcfg/tl-node.cpp:1752-1765 | the copying loop produces the merge in which incoming definitions win |
| PcfgNode.Node.RenameReachingDefinitionVar | src/tl/analysis/data_flow/pcfg/tl-node.cpp:1767-1786 | the definitions become the renamed map |
| PcfgNode.Node.UnsetReachingDefinition | src/tl/analysis/data_flow/pcfg/tl-node.cpp:1811-1820 | removes exactly that variable's definition |
| PcfgNode.Node.AuxiliarReachingDefinitions | src/tl/analysis/data_flow/pcfg/tl-node.cpp:1788-1799 | the stored map, empty when none is stored |
| PcfgNode.Node.SetAuxiliarReachingDefinition | src/tl/analysis/data_flow/pcfg/tl-node.cpp:1801-1809 | overwrites one auxiliary definition |
| PcfgNode.Node.SetGraphNodeReachingDefinitions | src/tl/analysis/data_flow/pcfg/tl-node.cpp:1179-1191 | a graph node takes its exit node's reaching definitions; any other node is fatal |
| PcfgNode.Node.LiveInVars | src/tl/analysis/data_flow/pcfg/tl-node.cpp:1193-1203 | the stored set, empty when none is stored |
| PcfgNode.Node.SetLiveIn | src/tl/analysis/data_flow/pcfg/tl-node.cpp:1205-1216 | inserts one symbol |
| PcfgNode.Node.SetLiveInSet | src/tl/analysis/data_flow/pcfg/tl-node.cpp:1218-1221 | replaces the set |
| PcfgNode.Node.LiveOutVars | src/tl/analysis/data_flow/pcfg/tl-node.cpp:1223-1233 | the stored set, empty when none is stored |
| PcfgNode.Node.SetLiveOut | src/tl/analysis/data_flow/pcfg/tl-node.cpp:1235-1246 | inserts one symbol |
| PcfgNode.Node.SetLiveOutSet | src/tl/analysis/data_flow/pcfg/tl-node.cpp:1248-1251 | replaces the set |
| PcfgNode.Node.UeVars | src/tl/analysis/data_flow/pcfg/tl-node.cpp:1253-1263 | the stored set, empty when none is stored |
| PcfgNode.Node.SetUeVar | src/tl/analysis/data_flow/pcfg/tl-node.cpp:1265-1278 | adds the symbol unless the set englobes it |
| PcfgNode.Node.SetUeVars | src/tl/analysis/data_flow/pcfg/tl-node.cpp:1280-1303 | adds the incoming symbols the old set does not englobe |
| PcfgNode.Node.UnsetUeVar | src/tl/analysis/data_flow/pcfg/tl-node.cpp:1305-1316 | removes exactly that symbol |
| PcfgNode.Node.KilledVars | src/tl/analysis/data_flow/pcfg/tl-node.cpp:1318-1328 | the stored set, empty when none is stored |
| PcfgNode.Node.SetKilledVar | src/tl/analysis/data_flow/pcfg/tl-node.cpp:1330-1344 | adds the symbol unless the set englobes it |
| PcfgNode.Node.SetKilledVars | src/tl/analysis/data_flow/pcfg/tl-node.cpp:1346-1369 | adds the incoming symbols the old set does not englobe |
| PcfgNode.Node.UnsetKilledVar | src/tl/analysis/data_flow/pcfg/tl-node.cpp:1371-1382 | removes exactly that symbol |
| PcfgNode.Purge | src/tl/analysis/data_flow/pcfg/tl-node.cpp:1290-1297 | the purging loop keeps exactly the incoming symbols the old set does not englobe |

## Left out

- Floating literals (`AST_FLOATING_LITERAL` shares the integer branch of create_value_from_literal): no floating point.
- Wide character literals and escape sequences: the source stops with `internal_error` on both, and the model does the same.
- The contents of `cxx-cexpr.h` are not part of this model. `boolean_value` is taken to be a `char`.
- Evaluator.Evaluate: symbol dereferences are bounded by a fuel parameter. A self-referential initializer recurses without end in the source; the model ends it with `Exhausted`, and FuelMonotone shows that a larger bound never changes a finished result.
- The host's undefined behaviour is modelled as an `Undefined` outcome, not as a precondition: division or remainder by zero, signed overflow, and shift counts outside the promoted width.
- Instantiation: the symbol table's scopes are held by value (sequences of injected symbols), not as shared mutable objects.
- Instantiation: `new_symbol` and the `build_scope_*` calls are not modelled. Neither are `ast_copy_for_instantiation`, `solve_class_template`, `finish_class_type` and `checking_ambiguity`, nor the type utilities. They appear as ghost trace events or as inputs.
- Instantiation: the `DEBUG_CODE` printing and the diagnostics are not modelled.
- Instantiation.Frontend.InstantiateTemplateClass: the `is_named_class` check before resolving a typedef is not modelled. The typedef's named class is an input.
- The `print_*` methods of tl-node.cpp and the warnings that `erase_*_edge`, `get_type_as_string` and `rename_reaching_defintion_var` write to stderr: output only.
- LinkData (`set_data`/`get_data`/`has_key`) is not part of this model. Reading an absent key with `get_data` is taken to be fatal.
- `codegen_to_str` and `Symbol::get_name` are not part of this model. A nodecl is modelled as its rendered text and its symbol name.
- `Utils::ext_sym_set_contains_englobing_nodecl` is not part of this model. It is passed to the operations that use it as a function.
- The names of the loop types are not part of this model: `tl-node.hpp` is not included.
- The visited and dependency flags (`is_visited`, `set_visited`, `has_deps_computed` and their siblings): plain field accessors used by graph walks outside this model. The fields are present and initialised.
- The node's scope and graph label, task context and task function, and stride node (tl-node.cpp:662-693, 720-749, 951-1106): the same kind-guarded accessor shape as the modelled setters, over attributes that no modelled property reads.
- The following are not modelled: `get_inner_nodes_in_level`, `advance_over_non_statement_nodes`, `back_over_non_statement_nodes` and `get_function_node_symbol`. They walk graphs or nodecls built elsewhere.
- The one-line kind tests `is_basic_node`, `is_graph_node`, `is_entry_node`, `is_exit_node`, `is_normal_node`, `is_labeled_node` and `is_function_call_node` compare `nodeType` directly.
- The undefined-behaviour, dependency, shared, private, firstprivate, undef_sc and race symbol sets (tl-node.cpp:1384-1726) are not modelled. They are set operations of the same shape as the live-in and upper-exposed ones modelled here.
- PcfgNode.Node.GetEntryEdgeLabels: returns the label outcome of every edge. The source stops at the first fatal one.
- PcfgNode.Node.GetExitEdgeLabels: returns the label outcome of every edge. The source stops at the first fatal one.
- PcfgEdge.Edge.constructor: the label is taken as an `EdgeLabel` rather than a string. This lets the model express the nodecl lists that the graph builder stores for CASE and CATCH edges. The source's `get_data<T>` simply casts whatever is stored. The model instead stops with `Fatal` (`LABEL_NOT_A_LIST`, `LABEL_NOT_A_STRING`) when the label has the wrong variant; the source has no such check.
- PcfgNode.Node.EraseEntryEdge: after `erase` the source decrements the iterator that the call has just invalidated (tl-node.cpp:101-102). This is undefined behaviour, and it steps before `begin()` when the matching edge is the first one. The model removes the first matching edge and stops, as the comment there says is meant.
- PcfgNode.Node.EraseExitEdge: the same undefined `--it` after `erase` (tl-node.cpp:123-124); the model removes the first matching edge and stops.

## Findings

| source | as written | input that shows it | evidently intended | confidence | as-written member | corrected member |
|---|---|---|---|---|---|---|
| src/cxx-cexpr.c:63-64 | logical and evaluates its right operand only when the left one is zero, and logical or only when it is non-zero | `0 && n` with `n` undeclared stops with "Cannot evaluate unknown symbol" | `0 && x` is false and `1` or-ed with `x` is true, without evaluating `x` | high; not executed | Evaluator.ZeroAndUndeclared | Evaluator.ShortCircuitSkipsRight |

The corrected half is `Evaluator.ShortCircuitOperation`, which uses `Operators.IntendedEvaluatesRhs`. `ShortCircuitTruthTable` proves C's truth tables for it, and `ShortCircuitKeepsStrict` proves that it agrees with `binary_operation` on every other operator. `Evaluate` itself keeps the table as written, because the model describes what the code does. Its operands are evaluated by `Evaluate`, so the correction applies one operator at a time.
