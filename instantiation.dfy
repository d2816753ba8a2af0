/**
 * Template instantiation in the C++ front end (cxx-instantiation.c): the
 * template arguments of a class or function specialization are injected
 * into a fresh template scope, one symbol per parameter, and then the
 * copied definition is built in that context.
 *
 * The scope-building collaborators (build_scope_*, finish_class_type,
 * solve_class_template, ast_copy_for_instantiation, ...) are not part of
 * this model: what they are handed is recorded, in order, in a ghost
 * event trace, and what they answer is an input.  Symbols whose fields
 * the instantiation writes are `Entry` objects.
 */
module Instantiation {
  import opened Wrappers
  import opened Values
  import opened Syntax
  import opened Literals
  import opened Evaluator

  const PARAMETER_NOT_FOUND: string := "Not found template parameter"
  const NOT_ONE_DEDUCED: string := "Number of deduced parameters is not 1!"
  const INVALID_PARAMETER_KIND: string := "Invalid parameter kind"
  const INVALID_SYMBOL: string := "Invalid symbol"
  const CLASS_NOT_ELIGIBLE: string := "Symbol is not a class eligible for instantiation"
  const NO_TEMPLATE_SELECTED: string := "Could not instantiate template"
  const FUNCTION_NOT_ELIGIBLE: string := "Symbol is not a template function eligible for instantiation"
  const COUNT_MISMATCH: string := "Mismatch between template arguments and parameters!"
  const ARGUMENT_KIND_MISMATCH: string := "Mismatch between template argument kind and template parameter kind"
  const NO_DEFINITION_TREE: string := "Invalid function definition tree!"

  /** A type, as an opaque descriptor handed from one collaborator to another. */
  type TypeRef = string

  /** A syntax tree of a template body; instantiation works on a copy. */
  datatype Tree = Tree(source: string) | CopyForInstantiation(original: Tree)

  datatype ParameterKind = TypeParameter | TemplateTemplateParameter | NontypeParameter | UnknownParameterKind(code: int)

  datatype ArgumentKind = TypeArgument | TemplateNameArgument | NontypeArgument

  /** template_parameter_t: the parameter's symbol name, its nesting
    * depth and position, and its kind. */
  datatype TemplateParameter = TemplateParameter(name: string, nesting: int, position: int, kind: ParameterKind)

  /** template_argument_t (also the shape of a deduced parameter): its
    * kind, its type and, for a non-type argument, the expression and the
    * scope to evaluate it in. */
  datatype TemplateArgument = TemplateArgument(kind: ArgumentKind, argumentType: TypeRef, expression: Node, expressionContext: Scope)

  /** One deduction of solve_class_template: which parameter was deduced
    * and the deduced arguments (exactly one is expected). */
  datatype Deduction = Deduction(kind: ParameterKind, nesting: int, position: int, deduced: seq<TemplateArgument>)

  /** The type_information written into an injected symbol. */
  datatype TypeInformation =
    | NewTypedef(aliased: TypeRef)
    | TypeOfNamedTemplate(named: TypeRef)
    | ArgumentType(argumentType: TypeRef)
    | ClassTypeOf(className: string)

  /** A symbol created by new_symbol during instantiation. */
  datatype InjectedSymbol = InjectedSymbol(
    name: string,
    kind: SymbolKind,
    isTemplateArgument: bool,
    typeInformation: TypeInformation,
    expressionValue: Option<Node>,
    doNotPrint: bool,
    isInjectedClassName: bool,
    referredSymbol: Option<string>)

  datatype DeclFlag = DfTemplate | DfExplicitSpecialization | DfInstantiating

  /** decl_context_t: flags, template nesting and parameters, and the
    * symbols signed into its template scope and its current scope. */
  datatype DeclContext = DeclContext(
    flags: set<DeclFlag>,
    templateNesting: int,
    templateParameters: Option<seq<TemplateParameter>>,
    templateScope: seq<InjectedSymbol>,
    currentScope: seq<InjectedSymbol>)

  datatype ClassState = IncompleteIndependent | IncompleteDependent | CompleteIndependent | CompleteDependent

  /** The template chosen by solve_class_template: its instantiation trees
    * (either may be absent) and its template parameters. */
  datatype SelectedTemplate = SelectedTemplate(body: Option<Tree>, baseClause: Option<Tree>, parameters: seq<TemplateParameter>)

  datatype Selection = Selection(selected: SelectedTemplate, deductions: seq<Deduction>)

  datatype FunctionInstantiation = NotInstantiated | Instantiated(context: DeclContext)

  /** What the instantiation hands to the code it does not contain, and
    * the writes whose order matters. */
  datatype Event =
    | SolveClassTemplate(className: string)
    | EnterClassSpecifier
    | BuildBaseClause(tree: Tree, context: DeclContext)
    | InjectClassName(className: string)
    | SetCompleteIndependent(className: string)
    | BuildMemberSpecification(tree: Tree, context: DeclContext)
    | SetDefined(className: string)
    | LeaveClassSpecifier
    | FinishClassType(className: string)
    | BuildFunctionDefinition(tree: Tree, context: DeclContext, testExpressionStatus: int)

  /** scope_entry_t, with the fields instantiation reads or writes. */
  class Entry {
    const name: string
    const kind: SymbolKind
    const declContext: DeclContext
    /** Predicates on the entry's type_information. */
    const isTemplateSpecialized: bool
    const isClassType: bool
    const isFunctionType: bool
    /** The template parameters and arguments of its specialized type. */
    const templateParameters: seq<TemplateParameter>
    const templateArguments: seq<TemplateArgument>
    /** The function definition tree of a function type. */
    const functionDefinition: Option<Tree>
    var classState: ClassState
    var innerContext: Option<DeclContext>
    var defined: bool

    constructor (name: string, kind: SymbolKind, declContext: DeclContext,
                 isTemplateSpecialized: bool, isClassType: bool, isFunctionType: bool,
                 templateParameters: seq<TemplateParameter>, templateArguments: seq<TemplateArgument>,
                 functionDefinition: Option<Tree>, classState: ClassState, defined: bool)
      ensures this.name == name && this.kind == kind && this.declContext == declContext
      ensures this.isTemplateSpecialized == isTemplateSpecialized
      ensures this.isClassType == isClassType && this.isFunctionType == isFunctionType
      ensures this.templateParameters == templateParameters && this.templateArguments == templateArguments
      ensures this.functionDefinition == functionDefinition
      ensures this.classState == classState && this.innerContext == None && this.defined == defined
    {
      this.name := name;
      this.kind := kind;
      this.declContext := declContext;
      this.isTemplateSpecialized := isTemplateSpecialized;
      this.isClassType := isClassType;
      this.isFunctionType := isFunctionType;
      this.templateParameters := templateParameters;
      this.templateArguments := templateArguments;
      this.functionDefinition := functionDefinition;
      this.classState := classState;
      this.innerContext := None;
      this.defined := defined;
    }
  }

  // ---------------------------------------------------------------------
  // Looking up a template parameter

  predicate Matches(p: TemplateParameter, nesting: int, position: int) {
    p.nesting == nesting && p.position == position
  }

  /** The name of the first parameter at or after `i` with that nesting
    * and position. */
  function NameFrom(params: seq<TemplateParameter>, i: nat, nesting: int, position: int): (r: Outcome<string>)
    requires i <= |params|
    ensures r.Ok? || r == Fatal(PARAMETER_NOT_FOUND)
    decreases |params| - i
  {
    if i == |params| then Fatal(PARAMETER_NOT_FOUND)
    else if Matches(params[i], nesting, position) then Ok(params[i].name)
    else NameFrom(params, i + 1, nesting, position)
  }

  /** The lookup finds a name exactly when some parameter matches, and
    * then it is the name of the first match. */
  lemma {:induction false} NameFromFirstMatch(params: seq<TemplateParameter>, i: nat, nesting: int, position: int)
    requires i <= |params|
    ensures NameFrom(params, i, nesting, position).Ok? <==>
      exists k :: i <= k < |params| && Matches(params[k], nesting, position)
    ensures NameFrom(params, i, nesting, position).Ok? ==>
      exists k :: i <= k < |params| && Matches(params[k], nesting, position)
        && NameFrom(params, i, nesting, position).value == params[k].name
        && forall j :: i <= j < k ==> !Matches(params[j], nesting, position)
    decreases |params| - i
  {
    if i < |params| && !Matches(params[i], nesting, position) {
      NameFromFirstMatch(params, i + 1, nesting, position);
      if NameFrom(params, i, nesting, position).Ok? {
        var k :| i + 1 <= k < |params| && Matches(params[k], nesting, position)
          && NameFrom(params, i + 1, nesting, position).value == params[k].name
          && forall j :: i + 1 <= j < k ==> !Matches(params[j], nesting, position);
        assert forall j :: i <= j < k ==> !Matches(params[j], nesting, position);
      }
    }
  }

  /** get_name_of_template_parameter: a linear search, fatal when no
    * parameter matches. */
  method GetNameOfTemplateParameter(params: seq<TemplateParameter>, nesting: int, position: int)
    returns (r: Outcome<string>)
    ensures r == NameFrom(params, 0, nesting, position)
  {
    var i := 0;
    while i < |params|
      invariant 0 <= i <= |params|
      invariant NameFrom(params, i, nesting, position) == NameFrom(params, 0, nesting, position)
    {
      if Matches(params[i], nesting, position) {
        return Ok(params[i].name);
      }
      i := i + 1;
    }
    return Fatal(PARAMETER_NOT_FOUND);
  }

  // ---------------------------------------------------------------------
  // The symbol injected for one parameter

  /** The expression_value of an injected non-type parameter: the
    * argument folded by the evaluator and turned back into a literal. */
  function Folded(arg: TemplateArgument, fuel: nat): (r: Outcome<Node>)
    ensures r.Ok? <==> Evaluate(arg.expression, arg.expressionContext, fuel).Ok?
    ensures r.Ok? ==> r.value == TreeFromLiteralValue(Evaluate(arg.expression, arg.expressionContext, fuel).value)
  {
    var v := Evaluate(arg.expression, arg.expressionContext, fuel);
    if v.Ok? then Ok(TreeFromLiteralValue(v.value)) else Propagate(v)
  }

  /** The switch on the parameter kind: a type parameter becomes a
    * typedef of the argument, a template parameter a template, a
    * non-type parameter a variable whose value is the folded argument. */
  function InjectedFor(name: string, kind: ParameterKind, arg: TemplateArgument, fuel: nat): Outcome<InjectedSymbol> {
    match kind
    case TypeParameter =>
      Ok(InjectedSymbol(name, Typedef, true, NewTypedef(arg.argumentType), None, false, false, None))
    case TemplateTemplateParameter =>
      Ok(InjectedSymbol(name, Template, true, TypeOfNamedTemplate(arg.argumentType), None, false, false, None))
    case NontypeParameter =>
      var e := Folded(arg, fuel);
      if e.Ok? then Ok(InjectedSymbol(name, Variable, true, ArgumentType(arg.argumentType), Some(e.value), false, false, None))
      else Propagate(e)
    case UnknownParameterKind(_) => Fatal(INVALID_PARAMETER_KIND)
  }

  function SymbolKindFor(kind: ParameterKind): SymbolKind {
    match kind
    case TypeParameter => Typedef
    case TemplateTemplateParameter => Template
    case _ => Variable
  }

  /** Every injected symbol is flagged as a template argument, carries the
    * parameter's name and the kind that parameter calls for; only
    * non-type parameters get a value, and an unknown kind is fatal. */
  lemma InjectedSymbolShape(name: string, kind: ParameterKind, arg: TemplateArgument, fuel: nat)
    ensures kind.UnknownParameterKind? ==> InjectedFor(name, kind, arg, fuel) == Fatal(INVALID_PARAMETER_KIND)
    ensures !kind.NontypeParameter? && !kind.UnknownParameterKind? ==> InjectedFor(name, kind, arg, fuel).Ok?
    ensures var r := InjectedFor(name, kind, arg, fuel);
      r.Ok? ==> (r.value.name == name && r.value.isTemplateArgument && r.value.kind == SymbolKindFor(kind)
                 && (r.value.expressionValue.Some? <==> kind.NontypeParameter?))
  {
  }

  /** A non-type parameter is injected exactly when its argument
    * evaluates, and evaluating the injected variable later gives back the
    * folded value (negated for a boolean, whose literal is read inverted). */
  lemma NontypeArgumentRoundTrip(name: string, arg: TemplateArgument, fuel: nat, st: Scope, later: nat)
    requires name in st
    requires InjectedFor(name, NontypeParameter, arg, fuel).Ok?
    requires var s := InjectedFor(name, NontypeParameter, arg, fuel).value;
      st[name] == Binding(s.kind, s.expressionValue)
    requires var v := Evaluate(arg.expression, arg.expressionContext, fuel);
      v.Ok? && (v.value.kind == Character ==> v.value.payload != '\\' as int)
    ensures Evaluate(Symbol(name), st, later + 1) == Ok(ReadBack(Evaluate(arg.expression, arg.expressionContext, fuel).value))
  {
    InjectedValueRoundTrip(name, Evaluate(arg.expression, arg.expressionContext, fuel).value, st, later);
  }

  // ---------------------------------------------------------------------
  // Injecting a whole list, stopping at the first failure

  /** The symbols of all steps, or the first step's failure. */
  function Collect<T>(steps: seq<Outcome<T>>): (r: Outcome<seq<T>>)
    ensures r.Ok? <==> forall i :: 0 <= i < |steps| ==> steps[i].Ok?
    ensures r.Ok? ==> |r.value| == |steps| && forall i :: 0 <= i < |steps| ==> steps[i] == Ok(r.value[i])
    decreases |steps|
  {
    if |steps| == 0 then Ok([])
    else
      var prev := Collect(steps[..|steps| - 1]);
      var last := steps[|steps| - 1];
      if !prev.Ok? then prev
      else if !last.Ok? then Propagate(last)
      else Ok(prev.value + [last.value])
  }

  /** The first failing step decides the outcome: the steps after it are
    * never looked at. */
  lemma {:induction false} CollectFirstFailure<T>(steps: seq<Outcome<T>>, i: nat)
    requires i < |steps| && !steps[i].Ok?
    requires Collect(steps[..i]).Ok?
    ensures Collect(steps) == Propagate(steps[i])
    decreases |steps|
  {
    if |steps| == i + 1 {
      assert steps[..|steps| - 1] == steps[..i];
    } else {
      var front := steps[..|steps| - 1];
      assert front[..i] == steps[..i];
      CollectFirstFailure(front, i);
    }
  }

  /** One more successful step appends its symbol. */
  lemma CollectStep<T>(steps: seq<Outcome<T>>, i: nat, done: seq<T>)
    requires i < |steps| && steps[i].Ok?
    requires Collect(steps[..i]) == Ok(done)
    ensures Collect(steps[..i + 1]) == Ok(done + [steps[i].value])
  {
    assert steps[..i + 1][..i] == steps[..i];
  }

  /** The class path's step for one deduction: exactly one deduced
    * argument, the parameter's name, then the injected symbol. */
  function DeductionStep(d: Deduction, params: seq<TemplateParameter>, fuel: nat): Outcome<InjectedSymbol> {
    if |d.deduced| != 1 then Fatal(NOT_ONE_DEDUCED)
    else
      var name := NameFrom(params, 0, d.nesting, d.position);
      if !name.Ok? then Propagate(name)
      else InjectedFor(name.value, d.kind, d.deduced[0], fuel)
  }

  function DeductionSteps(ds: seq<Deduction>, params: seq<TemplateParameter>, fuel: nat): (r: seq<Outcome<InjectedSymbol>>)
    ensures |r| == |ds| && forall i :: 0 <= i < |ds| ==> r[i] == DeductionStep(ds[i], params, fuel)
  {
    seq(|ds|, i requires 0 <= i < |ds| => DeductionStep(ds[i], params, fuel))
  }

  /** The loop of instantiate_specialized_template_class over the
    * deductions. */
  method InjectDeductions(ds: seq<Deduction>, params: seq<TemplateParameter>, fuel: nat)
    returns (r: Outcome<seq<InjectedSymbol>>)
    ensures r == Collect(DeductionSteps(ds, params, fuel))
  {
    ghost var steps := DeductionSteps(ds, params, fuel);
    var injected: seq<InjectedSymbol> := [];
    var i := 0;
    while i < |ds|
      invariant 0 <= i <= |ds|
      invariant Collect(steps[..i]) == Ok(injected)
    {
      var d := ds[i];
      if |d.deduced| != 1 {
        CollectFirstFailure(steps, i);
        return Fatal(NOT_ONE_DEDUCED);
      }
      var name := GetNameOfTemplateParameter(params, d.nesting, d.position);
      if !name.Ok? {
        CollectFirstFailure(steps, i);
        return Propagate(name);
      }
      var s := InjectedFor(name.value, d.kind, d.deduced[0], fuel);
      if !s.Ok? {
        CollectFirstFailure(steps, i);
        return Propagate(s);
      }
      CollectStep(steps, i, injected);
      injected := injected + [s.value];
      i := i + 1;
    }
    assert steps[..i] == steps;
    return Ok(injected);
  }

  predicate KindsAgree(p: ParameterKind, a: ArgumentKind) {
    match p
    case TypeParameter => a == TypeArgument
    case TemplateTemplateParameter => a == TemplateNameArgument
    case NontypeParameter => a == NontypeArgument
    case UnknownParameterKind(_) => true
  }

  /** The function path's step for the i-th parameter and argument: their
    * kinds must agree, an unknown kind is fatal. */
  function ArgumentStep(p: TemplateParameter, a: TemplateArgument, fuel: nat): Outcome<InjectedSymbol> {
    if p.kind.UnknownParameterKind? then Fatal(INVALID_PARAMETER_KIND)
    else if !KindsAgree(p.kind, a.kind) then Fatal(ARGUMENT_KIND_MISMATCH)
    else InjectedFor(p.name, p.kind, a, fuel)
  }

  function ArgumentSteps(params: seq<TemplateParameter>, args: seq<TemplateArgument>, fuel: nat): (r: seq<Outcome<InjectedSymbol>>)
    requires |params| == |args|
    ensures |r| == |params| && forall i :: 0 <= i < |params| ==> r[i] == ArgumentStep(params[i], args[i], fuel)
  {
    seq(|params|, i requires 0 <= i < |params| => ArgumentStep(params[i], args[i], fuel))
  }

  /** The context the function path yields: the arguments' symbols signed
    * into its template scope, or the first failure. */
  function ArgumentsInjected(params: seq<TemplateParameter>, args: seq<TemplateArgument>, context: DeclContext, fuel: nat)
    : Outcome<DeclContext>
  {
    if |args| != |params| then Fatal(COUNT_MISMATCH)
    else
      var s := Collect(ArgumentSteps(params, args, fuel));
      if s.Ok? then Ok(context.(templateScope := context.templateScope + s.value)) else Propagate(s)
  }

  /** The argument injection of the function path succeeds exactly when
    * the counts agree and every parameter is paired, by index, with an
    * argument of its kind that can be injected; each parameter then
    * gets one symbol of its name, in order, after what the scope held. */
  lemma ArgumentsInjectedShape(params: seq<TemplateParameter>, args: seq<TemplateArgument>, context: DeclContext, fuel: nat)
    ensures ArgumentsInjected(params, args, context, fuel).Ok? <==>
      |args| == |params|
      && forall i :: 0 <= i < |params| ==>
           !params[i].kind.UnknownParameterKind? && KindsAgree(params[i].kind, args[i].kind)
           && InjectedFor(params[i].name, params[i].kind, args[i], fuel).Ok?
    ensures var r := ArgumentsInjected(params, args, context, fuel);
      r.Ok? ==>
        |r.value.templateScope| == |context.templateScope| + |params|
        && r.value.templateScope[..|context.templateScope|] == context.templateScope
        && forall i :: 0 <= i < |params| ==>
             r.value.templateScope[|context.templateScope| + i] == InjectedFor(params[i].name, params[i].kind, args[i], fuel).value
    ensures var r := ArgumentsInjected(params, args, context, fuel);
      r.Ok? ==> r.value.flags == context.flags && r.value.currentScope == context.currentScope
  {
    ArgumentsInjectedSucceeds(params, args, context, fuel);
    ArgumentsInjectedScope(params, args, context, fuel);
  }

  /** One step succeeds exactly when the kinds agree and the symbol can be built. */
  lemma ArgumentStepOk(p: TemplateParameter, a: TemplateArgument, fuel: nat)
    ensures ArgumentStep(p, a, fuel).Ok? <==>
      !p.kind.UnknownParameterKind? && KindsAgree(p.kind, a.kind) && InjectedFor(p.name, p.kind, a, fuel).Ok?
    ensures ArgumentStep(p, a, fuel).Ok? ==> ArgumentStep(p, a, fuel) == InjectedFor(p.name, p.kind, a, fuel)
  {
  }

  lemma ArgumentsInjectedSucceeds(params: seq<TemplateParameter>, args: seq<TemplateArgument>, context: DeclContext, fuel: nat)
    ensures ArgumentsInjected(params, args, context, fuel).Ok? <==>
      |args| == |params|
      && forall i :: 0 <= i < |params| ==>
           !params[i].kind.UnknownParameterKind? && KindsAgree(params[i].kind, args[i].kind)
           && InjectedFor(params[i].name, params[i].kind, args[i], fuel).Ok?
  {
    if |args| == |params| {
      var steps := ArgumentSteps(params, args, fuel);
      forall i | 0 <= i < |params|
        ensures steps[i].Ok? <==>
          !params[i].kind.UnknownParameterKind? && KindsAgree(params[i].kind, args[i].kind)
          && InjectedFor(params[i].name, params[i].kind, args[i], fuel).Ok?
      {
        ArgumentStepOk(params[i], args[i], fuel);
      }
    }
  }

  lemma ArgumentsInjectedScope(params: seq<TemplateParameter>, args: seq<TemplateArgument>, context: DeclContext, fuel: nat)
    ensures var r := ArgumentsInjected(params, args, context, fuel);
      r.Ok? ==>
        |r.value.templateScope| == |context.templateScope| + |params|
        && r.value.templateScope[..|context.templateScope|] == context.templateScope
        && forall i :: 0 <= i < |params| ==>
             r.value.templateScope[|context.templateScope| + i] == InjectedFor(params[i].name, params[i].kind, args[i], fuel).value
    ensures var r := ArgumentsInjected(params, args, context, fuel);
      r.Ok? ==> r.value.flags == context.flags && r.value.currentScope == context.currentScope
  {
    if |args| == |params| {
      var steps := ArgumentSteps(params, args, fuel);
      var s := Collect(steps);
      if s.Ok? {
        forall i | 0 <= i < |params|
          ensures (context.templateScope + s.value)[|context.templateScope| + i]
                  == InjectedFor(params[i].name, params[i].kind, args[i], fuel).value
        {
          assert steps[i] == Ok(s.value[i]);
          ArgumentStepOk(params[i], args[i], fuel);
        }
      }
    }
  }

  /** The first failing argument step decides the outcome. */
  lemma ArgumentFailure(params: seq<TemplateParameter>, args: seq<TemplateArgument>, context: DeclContext, fuel: nat, i: nat)
    requires |args| == |params| && i < |params|
    requires Collect(ArgumentSteps(params, args, fuel)[..i]).Ok?
    requires !ArgumentSteps(params, args, fuel)[i].Ok?
    ensures ArgumentsInjected(params, args, context, fuel) == Propagate(ArgumentSteps(params, args, fuel)[i])
  {
    CollectFirstFailure(ArgumentSteps(params, args, fuel), i);
  }

  /** The loop shared by get_instantiation_context and
    * instantiate_template_function. */
  method InjectTemplateArguments(params: seq<TemplateParameter>, args: seq<TemplateArgument>, context: DeclContext, fuel: nat)
    returns (r: Outcome<DeclContext>)
    ensures r == ArgumentsInjected(params, args, context, fuel)
  {
    if |args| != |params| {
      return Fatal(COUNT_MISMATCH);
    }
    ghost var steps := ArgumentSteps(params, args, fuel);
    var injected: seq<InjectedSymbol> := [];
    var i := 0;
    while i < |params|
      invariant 0 <= i <= |params|
      invariant Collect(steps[..i]) == Ok(injected)
    {
      var p, a := params[i], args[i];
      // each branch either fails with its own message or builds the symbol
      var s: Outcome<InjectedSymbol>;
      match p.kind {
        case TypeParameter =>
          s := if a.kind != TypeArgument then Fatal(ARGUMENT_KIND_MISMATCH)
               else Ok(InjectedSymbol(p.name, Typedef, true, NewTypedef(a.argumentType), None, false, false, None));
        case TemplateTemplateParameter =>
          s := if a.kind != TemplateNameArgument then Fatal(ARGUMENT_KIND_MISMATCH)
               else Ok(InjectedSymbol(p.name, Template, true, TypeOfNamedTemplate(a.argumentType), None, false, false, None));
        case NontypeParameter =>
          s := if a.kind != NontypeArgument then Fatal(ARGUMENT_KIND_MISMATCH)
               else InjectedFor(p.name, p.kind, a, fuel);
        case UnknownParameterKind(_) =>
          s := Fatal(INVALID_PARAMETER_KIND);
      }
      assert s == steps[i];
      if !s.Ok? {
        ArgumentFailure(params, args, context, fuel, i);
        return Propagate(s);
      }
      CollectStep(steps, i, injected);
      injected := injected + [s.value];
      i := i + 1;
    }
    assert steps[..i] == steps;
    return Ok(context.(templateScope := context.templateScope + injected));
  }

  // ---------------------------------------------------------------------
  // Contexts

  /** new_template_context: a context with a fresh, empty template scope. */
  function NewTemplateContext(c: DeclContext): DeclContext {
    c.(templateScope := [])
  }

  /** The template context of a class instantiation: not a template any
    * more, nesting 0 and no template parameters. */
  function ClassTemplateContext(c: DeclContext): (r: DeclContext)
    ensures DfTemplate !in r.flags && DfExplicitSpecialization !in r.flags
    ensures forall f :: f in c.flags && f != DfTemplate && f != DfExplicitSpecialization ==> f in r.flags
    ensures r.templateNesting == 0 && r.templateParameters.None? && r.templateScope == []
  {
    var t := NewTemplateContext(c);
    t.(flags := t.flags - {DfTemplate, DfExplicitSpecialization}, templateNesting := 0, templateParameters := None)
  }

  /** new_class_context: a fresh current scope for the class members. */
  function NewClassContext(c: DeclContext): DeclContext {
    c.(currentScope := [])
  }

  function CopyOf(t: Option<Tree>): Option<Tree> {
    if t.Some? then Some(CopyForInstantiation(t.value)) else None
  }

  /** The injected class name: a copy of the class symbol that is not
    * printed, is marked as the injected class name and refers to the
    * class. */
  function InjectedClassName(className: string): (r: InjectedSymbol)
    ensures r.name == className && r.kind == Class
    ensures r.doNotPrint && r.isInjectedClassName && r.referredSymbol == Some(className)
  {
    InjectedSymbol(className, Class, false, ClassTypeOf(className), None, true, true, Some(className))
  }

  /** The inner context of an instantiated class. */
  function InnerContext(c: DeclContext, injected: seq<InjectedSymbol>, className: string): DeclContext {
    NewClassContext(ClassTemplateContext(c).(templateScope := injected)).(currentScope := [InjectedClassName(className)])
  }

  /** The events of a class instantiation after the parameters are
    * injected. */
  function ClassEvents(className: string, selected: SelectedTemplate, inner: DeclContext): seq<Event> {
    var base := CopyOf(selected.baseClause);
    var body := CopyOf(selected.body);
    [EnterClassSpecifier]
    + BaseEvents(base, inner.(currentScope := []))
    + [InjectClassName(className), SetCompleteIndependent(className)]
    + MemberEvents(body, inner.(flags := inner.flags + {DfInstantiating}))
    + [SetDefined(className), LeaveClassSpecifier, FinishClassType(className)]
  }

  function BaseEvents(base: Option<Tree>, c: DeclContext): seq<Event> {
    if base.Some? then [BuildBaseClause(base.value, c)] else []
  }

  function MemberEvents(body: Option<Tree>, c: DeclContext): seq<Event> {
    if body.Some? then [BuildMemberSpecification(body.value, c)] else []
  }

  lemma ClassEventsUnfold(className: string, selected: SelectedTemplate, inner0: DeclContext, inner: DeclContext)
    requires inner0.currentScope == [] && inner == inner0.(currentScope := [InjectedClassName(className)])
    ensures ClassEvents(className, selected, inner)
         == [EnterClassSpecifier] + BaseEvents(CopyOf(selected.baseClause), inner0)
          + [InjectClassName(className), SetCompleteIndependent(className)]
          + MemberEvents(CopyOf(selected.body), inner.(flags := inner.flags + {DfInstantiating}))
          + [SetDefined(className), LeaveClassSpecifier, FinishClassType(className)]
  {
    assert inner0 == inner.(currentScope := []);
  }

  /** Appending five pieces one after the other appends their concatenation. */
  lemma AppendFive<T>(t: seq<T>, a: seq<T>, b: seq<T>, c: seq<T>, d: seq<T>, e: seq<T>)
    ensures t + a + b + c + d + e == t + (a + b + c + d + e)
  {
  }

  /** The order the class instantiation relies on: the base clause is
    * built before the class name is injected, the class is complete
    * before its members are built (so they do not instantiate it again),
    * it is defined only after them, the members see DF_INSTANTIATING,
    * and finishing the class comes last. */
  lemma ClassEventOrder(className: string, selected: SelectedTemplate, inner: DeclContext)
    ensures var e := ClassEvents(className, selected, inner);
      forall i, j :: 0 <= i < |e| && 0 <= j < |e| && e[i].BuildBaseClause? && e[j].InjectClassName? ==> i < j
    ensures var e := ClassEvents(className, selected, inner);
      forall i, j :: 0 <= i < |e| && 0 <= j < |e| && e[i].SetCompleteIndependent? && e[j].BuildMemberSpecification? ==> i < j
    ensures var e := ClassEvents(className, selected, inner);
      forall i, j :: 0 <= i < |e| && 0 <= j < |e| && e[i].BuildMemberSpecification? && e[j].SetDefined? ==> i < j
    ensures var e := ClassEvents(className, selected, inner);
      forall i :: 0 <= i < |e| && e[i].BuildMemberSpecification? ==> DfInstantiating in e[i].context.flags
    ensures var e := ClassEvents(className, selected, inner);
      |e| > 0 && e[|e| - 1] == FinishClassType(className)
      && forall i :: 0 <= i < |e| - 1 ==> !e[i].FinishClassType?
    ensures var e := ClassEvents(className, selected, inner);
      (exists i :: 0 <= i < |e| && e[i].BuildMemberSpecification?) <==> selected.body.Some?
  {
    var e := ClassEvents(className, selected, inner);
    var b := if selected.baseClause.Some? then 1 else 0;
    var m := if selected.body.Some? then 1 else 0;
    assert |e| == 6 + b + m;
    assert e[1 + b] == InjectClassName(className);
    assert e[2 + b] == SetCompleteIndependent(className);
    assert e[3 + b + m] == SetDefined(className);
    if m == 1 {
      assert e[3 + b].BuildMemberSpecification?;
    }
  }

  // ---------------------------------------------------------------------
  // The front end's state

  class Frontend {
    /** The global test-expression status (ambiguity testing). */
    var testExpressionStatus: int
    /** What checking_ambiguity() answers. */
    var checkingAmbiguity: bool
    /** The calls to the collaborators, in order. */
    ghost var trace: seq<Event>
    /** Bound on nested symbol dereferences when folding arguments. */
    const fuel: nat

    constructor (fuel: nat, testExpressionStatus: int, checkingAmbiguity: bool)
      ensures this.fuel == fuel && this.testExpressionStatus == testExpressionStatus
      ensures this.checkingAmbiguity == checkingAmbiguity && trace == []
    {
      this.fuel := fuel;
      this.testExpressionStatus := testExpressionStatus;
      this.checkingAmbiguity := checkingAmbiguity;
      trace := [];
    }

    /** instantiate_specialized_template_class: inject the deduced
      * arguments, then build the class in the order ClassEvents gives.
      * A failed injection changes nothing. */
    method InstantiateSpecializedTemplateClass(selected: SelectedTemplate, named: Entry, ds: seq<Deduction>)
      returns (r: Outcome<DeclContext>)
      modifies this`trace, named
      ensures var injected := Collect(DeductionSteps(ds, selected.parameters, fuel));
        r == if injected.Ok? then Ok(InnerContext(named.declContext, injected.value, named.name)) else Propagate(injected)
      ensures r.Ok? ==> trace == old(trace) + ClassEvents(named.name, selected, r.value)
      ensures r.Ok? ==> named.defined && named.classState == CompleteIndependent && named.innerContext == Some(r.value)
      ensures !r.Ok? ==> trace == old(trace) && unchanged(named)
    {
      var templateContext := ClassTemplateContext(named.declContext);
      var injected := InjectDeductions(ds, selected.parameters, fuel);
      if !injected.Ok? {
        return Propagate(injected);
      }
      templateContext := templateContext.(templateScope := injected.value);
      var inner := BuildSpecializedClass(selected, named, NewClassContext(templateContext));
      return Ok(inner);
    }

    /** The second half of instantiate_specialized_template_class: the
      * class specifier built in the new class context `inner0`. */
    method BuildSpecializedClass(selected: SelectedTemplate, named: Entry, inner0: DeclContext)
      returns (inner: DeclContext)
      requires inner0.currentScope == []
      modifies this`trace, named
      ensures inner == inner0.(currentScope := [InjectedClassName(named.name)])
      ensures trace == old(trace) + ClassEvents(named.name, selected, inner)
      ensures named.defined && named.classState == CompleteIndependent && named.innerContext == Some(inner)
    {
      var body := CopyOf(selected.body);
      var base := CopyOf(selected.baseClause);
      inner := inner0;
      ghost var t0 := trace;
      trace := trace + [EnterClassSpecifier];
      if base.Some? {
        trace := trace + [BuildBaseClause(base.value, inner)];
      }
      assert trace == t0 + [EnterClassSpecifier] + BaseEvents(base, inner0);
      assert inner.currentScope + [InjectedClassName(named.name)] == [InjectedClassName(named.name)];
      inner := inner.(currentScope := inner.currentScope + [InjectedClassName(named.name)]);
      trace := trace + [InjectClassName(named.name)];
      named.classState := CompleteIndependent;
      trace := trace + [SetCompleteIndependent(named.name)];
      ghost var t1 := trace;
      assert t1 == t0 + [EnterClassSpecifier] + BaseEvents(base, inner0)
                 + [InjectClassName(named.name), SetCompleteIndependent(named.name)];
      var membersContext := inner.(flags := inner.flags + {DfInstantiating});
      if body.Some? {
        trace := trace + [BuildMemberSpecification(body.value, membersContext)];
      }
      assert trace == t1 + MemberEvents(body, membersContext);
      named.defined := true;
      trace := trace + [SetDefined(named.name), LeaveClassSpecifier, FinishClassType(named.name)];
      named.innerContext := Some(inner);
      assert trace == t1 + MemberEvents(body, membersContext)
                      + [SetDefined(named.name), LeaveClassSpecifier, FinishClassType(named.name)];
      AppendFive(t0, [EnterClassSpecifier], BaseEvents(base, inner0),
                 [InjectClassName(named.name), SetCompleteIndependent(named.name)],
                 MemberEvents(body, membersContext),
                 [SetDefined(named.name), LeaveClassSpecifier, FinishClassType(named.name)]);
      ClassEventsUnfold(named.name, selected, inner0, inner);
    }

    /** instantiate_template_class: a typedef stands for the class it
      * names (`resolved`, what advance_over_typedefs reaches); the class
      * must be an incomplete, independent template specialization, and
      * solve_class_template must select a template (`selection` is its
      * answer). */
    method InstantiateTemplateClass(entry: Entry, resolved: Entry, selection: Option<Selection>)
      returns (r: Outcome<DeclContext>)
      modifies this`trace, entry, resolved
      ensures entry.kind != Class && entry.kind != Typedef ==> r == Fatal(INVALID_SYMBOL) && trace == old(trace)
      ensures var named := if entry.kind == Typedef then resolved else entry;
        (entry.kind == Class || entry.kind == Typedef)
        && !(named.isTemplateSpecialized && named.isClassType && old(named.classState) == IncompleteIndependent)
        ==> r == Fatal(CLASS_NOT_ELIGIBLE) && trace == old(trace)
      ensures var named := if entry.kind == Typedef then resolved else entry;
        (entry.kind == Class || entry.kind == Typedef)
        && named.isTemplateSpecialized && named.isClassType && old(named.classState) == IncompleteIndependent
        ==> |trace| > |old(trace)| && trace[|old(trace)|] == SolveClassTemplate(named.name)
      ensures var named := if entry.kind == Typedef then resolved else entry;
        (entry.kind == Class || entry.kind == Typedef)
        && named.isTemplateSpecialized && named.isClassType && old(named.classState) == IncompleteIndependent
        ==> (selection.None? ==> r == Fatal(NO_TEMPLATE_SELECTED))
            && (selection.Some? ==>
                  var injected := Collect(DeductionSteps(selection.value.deductions, selection.value.selected.parameters, fuel));
                  r == if injected.Ok?
                       then Ok(InnerContext(named.declContext, injected.value, named.name))
                       else Propagate(injected))
            && (!r.Ok? ==> trace == old(trace) + [SolveClassTemplate(named.name)])
      ensures !r.Ok? ==> unchanged(entry) && unchanged(resolved)
      ensures r.Ok? && entry.kind == Typedef && entry != resolved ==> unchanged(entry)
      ensures r.Ok? && entry.kind == Class && resolved != entry ==> unchanged(resolved)
      ensures r.Ok? ==> selection.Some? && (entry.kind == Class || entry.kind == Typedef)
      ensures var named := if entry.kind == Typedef then resolved else entry;
        r.Ok? ==> (named.defined && named.classState == CompleteIndependent && named.innerContext == Some(r.value)
                   && trace == old(trace) + [SolveClassTemplate(named.name)] + ClassEvents(named.name, selection.value.selected, r.value))
    {
      if entry.kind != Class && entry.kind != Typedef {
        return Fatal(INVALID_SYMBOL);
      }
      var named := if entry.kind == Typedef then resolved else entry;
      if !named.isTemplateSpecialized || !named.isClassType || named.classState != IncompleteIndependent {
        return Fatal(CLASS_NOT_ELIGIBLE);
      }
      trace := trace + [SolveClassTemplate(named.name)];
      if selection.None? {
        return Fatal(NO_TEMPLATE_SELECTED);
      }
      r := InstantiateSpecializedTemplateClass(selection.value.selected, named, selection.value.deductions);
    }

    /** get_instantiation_context: the template context of a function
      * specialization with its arguments injected; without a parameter
      * list the specialization's own is used. */
    method GetInstantiationContext(entry: Entry, params: Option<seq<TemplateParameter>>) returns (r: Outcome<DeclContext>)
      ensures !(entry.isTemplateSpecialized && entry.isFunctionType) ==> r == Fatal(FUNCTION_NOT_ELIGIBLE)
      ensures entry.isTemplateSpecialized && entry.isFunctionType ==>
        r == ArgumentsInjected(if params.Some? then params.value else entry.templateParameters,
                               entry.templateArguments, NewTemplateContext(entry.declContext), fuel)
    {
      if !entry.isTemplateSpecialized || !entry.isFunctionType {
        return Fatal(FUNCTION_NOT_ELIGIBLE);
      }
      var context := NewTemplateContext(entry.declContext);
      var ps := if params.None? then entry.templateParameters else params.value;
      r := InjectTemplateArguments(ps, entry.templateArguments, context, fuel);
    }

    /** instantiate_template_function: nothing happens while ambiguities
      * are being checked, when the primary template (`primary`, what the
      * type's template leads to) is not defined, or when the
      * specialization already is; otherwise the arguments are injected
      * and the copied definition is built as an explicit specialization
      * with the test-expression status set to 0, which is restored
      * afterwards. */
    method InstantiateTemplateFunction(entry: Entry, primary: Entry) returns (r: Outcome<FunctionInstantiation>)
      modifies this`trace, this`testExpressionStatus
      ensures testExpressionStatus == old(testExpressionStatus)
      ensures checkingAmbiguity ==> r == Ok(NotInstantiated)
      ensures !checkingAmbiguity && entry.kind != Function ==> r == Fatal(INVALID_SYMBOL)
      ensures !checkingAmbiguity && entry.kind == Function && !(entry.isTemplateSpecialized && entry.isFunctionType)
        ==> r == Fatal(FUNCTION_NOT_ELIGIBLE)
      ensures (!checkingAmbiguity && entry.kind == Function && entry.isTemplateSpecialized && entry.isFunctionType
               && (!primary.defined || entry.defined)) ==> r == Ok(NotInstantiated)
      ensures !(r.Ok? && r.value.Instantiated?) ==> trace == old(trace)
      ensures var injected := ArgumentsInjected(entry.templateParameters, entry.templateArguments,
                                                NewTemplateContext(entry.declContext), fuel);
        r.Ok? && r.value.Instantiated? <==>
          !checkingAmbiguity && entry.kind == Function && entry.isTemplateSpecialized && entry.isFunctionType
          && primary.defined && !entry.defined && injected.Ok? && primary.functionDefinition.Some?
      ensures var injected := ArgumentsInjected(entry.templateParameters, entry.templateArguments,
                                                NewTemplateContext(entry.declContext), fuel);
        r.Ok? && r.value.Instantiated? ==>
          r.value.context == injected.value.(flags := injected.value.flags + {DfTemplate, DfExplicitSpecialization})
          && trace == old(trace) + [BuildFunctionDefinition(CopyForInstantiation(primary.functionDefinition.value), r.value.context, 0)]
      ensures var injected := ArgumentsInjected(entry.templateParameters, entry.templateArguments,
                                                NewTemplateContext(entry.declContext), fuel);
        !checkingAmbiguity && entry.kind == Function && entry.isTemplateSpecialized && entry.isFunctionType
        && primary.defined && !entry.defined ==>
          (!injected.Ok? ==> r == Propagate(injected))
          && (injected.Ok? && primary.functionDefinition.None? ==> r == Fatal(NO_DEFINITION_TREE))
    {
      if checkingAmbiguity {
        return Ok(NotInstantiated);
      }
      if entry.kind != Function {
        return Fatal(INVALID_SYMBOL);
      }
      if !entry.isTemplateSpecialized || !entry.isFunctionType {
        return Fatal(FUNCTION_NOT_ELIGIBLE);
      }
      if !primary.defined {
        return Ok(NotInstantiated);
      }
      if entry.defined {
        return Ok(NotInstantiated);
      }
      var context := NewTemplateContext(entry.declContext);
      var injected := InjectTemplateArguments(entry.templateParameters, entry.templateArguments, context, fuel);
      if !injected.Ok? {
        return Propagate(injected);
      }
      if primary.functionDefinition.None? {
        return Fatal(NO_DEFINITION_TREE);
      }
      var definition := CopyForInstantiation(primary.functionDefinition.value);
      context := injected.value.(flags := injected.value.flags + {DfTemplate, DfExplicitSpecialization});
      var oldTestStatus := testExpressionStatus;
      testExpressionStatus := 0;
      trace := trace + [BuildFunctionDefinition(definition, context, testExpressionStatus)];
      testExpressionStatus := oldTestStatus;
      return Ok(Instantiated(context));
    }
  }
}
