/**
 * Edges of the parallel control-flow graph (tl-edge.cpp): the source and
 * target nodes and the attributes kept in the edge's key/value store,
 * each of which may be absent.
 */
module PcfgEdge {
  import opened Wrappers
  import opened Values

  const NO_LABEL: string := "no label stored in the edge"
  const LABEL_NOT_A_LIST: string := "the edge label is not a list of nodecls"
  const LABEL_NOT_A_STRING: string := "the edge label is not a string"
  const LABEL_OUT_OF_RANGE: string := "basic_string::substr: position out of range"
  const NO_BACK_ATTRIBUTE: string := "Edge without attribute _IS_BACK. This attribute is mandatory for all edges"
  const NO_TASK_ATTRIBUTE: string := "Edge without attribute _IS_TASK. This attribute is mandatory for all edges"
  const NO_EXECUTION_INFO: string := "Requesting execution information in an edge which does not contain this info"
  const NO_EDGE_TYPE: string := "no edge type stored in the edge"

  datatype EdgeType = Always | Case | Catch | FalseEdge | GotoEdge | TrueEdge | UnclassifiedEdge

  /** A Nodecl::NodeclBase as the labels see it: the null nodecl, or an
    * expression with the text codegen_to_str renders and the name of the
    * symbol it refers to. */
  datatype Nodecl = NullNodecl | Expression(code: string, symbolName: string)

  /** What the _EDGE_LABEL key holds: the string of the constructor and
    * set_label, or the nodecl list the graph builder stores for CASE and
    * CATCH edges. */
  datatype EdgeLabel = Text(text: string) | Labels(labels: seq<Nodecl>)

  /** How one case label is rendered. */
  function Render(n: Nodecl): string {
    if n.NullNodecl? then "default" else n.code
  }

  function Rendered(labels: seq<Nodecl>): (r: seq<string>)
    ensures |r| == |labels| && forall i :: 0 <= i < |labels| ==> r[i] == Render(labels[i])
  {
    seq(|labels|, i requires 0 <= i < |labels| => Render(labels[i]))
  }

  /** The items separated by ", ". */
  function Join(items: seq<string>): string {
    if |items| == 0 then ""
    else if |items| == 1 then items[0]
    else Join(items[..|items| - 1]) + ", " + items[|items| - 1]
  }

  /** What the CASE loop accumulates: ", " before every item. */
  function Accumulated(items: seq<string>): string {
    if |items| == 0 then "" else Accumulated(items[..|items| - 1]) + ", " + items[|items| - 1]
  }

  /** Dropping the first two characters of the accumulated text leaves
    * exactly the items joined by ", ". */
  lemma {:induction false} AccumulatedJoin(items: seq<string>)
    requires |items| >= 1
    ensures Accumulated(items) == ", " + Join(items)
    decreases |items|
  {
    if |items| > 1 {
      AccumulatedJoin(items[..|items| - 1]);
    }
  }

  /** The label of an edge with that type and label attribute, or why
    * there is none: TRUE and FALSE edges are named so, ALWAYS,
    * UNCLASSIFIED and untyped edges have the empty label, a CASE edge
    * lists its labels (a null one as "default"), a CATCH edge names the
    * caught symbol ("..." for a null one), a GOTO edge shows its string. */
  function LabelOf(t: Option<EdgeType>, l: Option<EdgeLabel>): Outcome<string> {
    if t.None? then Ok("")
    else
      match t.value
      case UnclassifiedEdge => Ok("")
      case TrueEdge => Ok("TRUE")
      case FalseEdge => Ok("FALSE")
      case Always => Ok("")
      case Case =>
        if l.None? then Fatal(NO_LABEL)
        else if !l.value.Labels? then Fatal(LABEL_NOT_A_LIST)
        else if |l.value.labels| == 0 then Fatal(LABEL_OUT_OF_RANGE)
        else Ok(Join(Rendered(l.value.labels)))
      case Catch =>
        if l.None? then Fatal(NO_LABEL)
        else if !l.value.Labels? then Fatal(LABEL_NOT_A_LIST)
        else if |l.value.labels| == 0 then Undefined("first element of an empty label list")
        else if l.value.labels[0].NullNodecl? then Ok("...")
        else Ok(l.value.labels[0].symbolName)
      case GotoEdge =>
        if l.None? then Fatal(NO_LABEL)
        else if !l.value.Text? then Fatal(LABEL_NOT_A_STRING)
        else Ok(l.value.text)
  }

  /** The fixed labels of the simple edge kinds, whatever the label
    * attribute holds. */
  lemma FixedLabels(l: Option<EdgeLabel>)
    ensures LabelOf(Some(TrueEdge), l) == Ok("TRUE")
    ensures LabelOf(Some(FalseEdge), l) == Ok("FALSE")
    ensures LabelOf(Some(Always), l) == Ok("") && LabelOf(Some(UnclassifiedEdge), l) == Ok("")
    ensures LabelOf(None, l) == Ok("")
  {
  }

  /** A CASE label: one item per case label, in order, each either
    * "default" or the rendered expression, separated by ", " (so a
    * single label shows alone, with no separator). */
  lemma CaseLabel(labels: seq<Nodecl>)
    requires |labels| >= 1
    ensures var r := LabelOf(Some(Case), Some(Labels(labels)));
      r.Ok? && (|labels| == 1 ==> r.value == Render(labels[0]))
    ensures |labels| >= 2 ==>
      LabelOf(Some(Case), Some(Labels(labels))).value
        == LabelOf(Some(Case), Some(Labels(labels[..|labels| - 1]))).value + ", " + Render(labels[|labels| - 1])
  {
    if |labels| >= 2 {
      assert Rendered(labels)[..|labels| - 1] == Rendered(labels[..|labels| - 1]);
    }
  }

  /** The CATCH label depends only on the first label. */
  lemma CatchLabel(labels: seq<Nodecl>)
    requires |labels| >= 1
    ensures LabelOf(Some(Catch), Some(Labels(labels)))
            == Ok(if labels[0].NullNodecl? then "..." else labels[0].symbolName)
  {
  }

  class Edge<N> {
    const source: N
    const target: N
    var edgeType: Option<EdgeType>
    var edgeLabel: Option<EdgeLabel>
    var isBack: Option<bool>
    var isTask: Option<bool>
    var executable: Option<bool>

    /** The attributes every constructed edge has. */
    predicate Valid()
      reads this
    {
      edgeType.Some? && edgeLabel.Some? && isBack.Some? && isTask.Some?
    }

    /** Edge::Edge: stores the two ends, the type, the label and the two
      * flags; nothing is known about execution yet. */
    constructor (source: N, target: N, isBackEdge: bool, isTaskEdge: bool, edgeType: EdgeType, edgeLabel: EdgeLabel)
      ensures this.source == source && this.target == target
      ensures this.edgeType == Some(edgeType) && this.edgeLabel == Some(edgeLabel)
      ensures isBack == Some(isBackEdge) && isTask == Some(isTaskEdge) && executable == None
      ensures Valid()
    {
      this.source := source;
      this.target := target;
      this.edgeType := Some(edgeType);
      this.edgeLabel := Some(edgeLabel);
      this.isBack := Some(isBackEdge);
      this.isTask := Some(isTaskEdge);
      this.executable := None;
    }

    /** get_type: UNCLASSIFIED_EDGE when no type is stored. */
    function Type(): (r: EdgeType)
      reads this
      ensures edgeType.None? ==> r == UnclassifiedEdge
      ensures edgeType.Some? ==> r == edgeType.value
    {
      if edgeType.Some? then edgeType.value else UnclassifiedEdge
    }

    /** get_type_as_string: the name of the stored type, empty when no
      * type is stored. */
    function TypeName(): (r: string)
      reads this
      ensures r == "" <==> edgeType.None?
      ensures edgeType == Some(TrueEdge) ==> r == "TRUE"
      ensures edgeType == Some(FalseEdge) ==> r == "FALSE"
    {
      if edgeType.None? then ""
      else
        match edgeType.value
        case Always => "ALWAYS"
        case Case => "CASE"
        case Catch => "CATCH"
        case FalseEdge => "FALSE"
        case GotoEdge => "GOTO"
        case TrueEdge => "TRUE"
        case UnclassifiedEdge => "UNCLASSIFIED"
    }

    /** is_always_edge, is_case_edge, is_catch_edge, is_false_edge,
      * is_goto_edge and is_true_edge: whether the stored type is `t`,
      * reading it without checking that it is there. */
    function IsOfType(t: EdgeType): (r: Outcome<bool>)
      reads this
      ensures r.Ok? <==> edgeType.Some?
      ensures r.Ok? ==> (r.value <==> Type() == t)
    {
      if edgeType.Some? then Ok(edgeType.value == t) else Fatal(NO_EDGE_TYPE)
    }

    /** is_back_edge: the stored flag, fatal without one. */
    function IsBackEdge(): (r: Outcome<bool>)
      reads this
      ensures Valid() ==> r == Ok(isBack.value)
      ensures isBack.None? ==> r == Fatal(NO_BACK_ATTRIBUTE)
    {
      if isBack.Some? then Ok(isBack.value) else Fatal(NO_BACK_ATTRIBUTE)
    }

    /** is_task_edge: the stored flag, fatal without one. */
    function IsTaskEdge(): (r: Outcome<bool>)
      reads this
      ensures Valid() ==> r == Ok(isTask.value)
      ensures isTask.None? ==> r == Fatal(NO_TASK_ATTRIBUTE)
    {
      if isTask.Some? then Ok(isTask.value) else Fatal(NO_TASK_ATTRIBUTE)
    }

    /** get_label, with the CASE labels joined by the source's loop. */
    method GetLabel() returns (r: Outcome<string>)
      ensures r == LabelOf(edgeType, edgeLabel)
    {
      if edgeType.None? {
        return Ok("");
      }
      match edgeType.value {
        case UnclassifiedEdge => r := Ok("");
        case TrueEdge => r := Ok("TRUE");
        case FalseEdge => r := Ok("FALSE");
        case Always => r := Ok("");
        case Case =>
          if edgeLabel.None? {
            return Fatal(NO_LABEL);
          }
          if !edgeLabel.value.Labels? {
            return Fatal(LABEL_NOT_A_LIST);
          }
          var labels := edgeLabel.value.labels;
          ghost var items := Rendered(labels);
          var text := "";
          var i := 0;
          while i < |labels|
            invariant 0 <= i <= |labels|
            invariant text == Accumulated(items[..i])
          {
            assert items[..i + 1][..i] == items[..i];
            text := text + ", " + Render(labels[i]);
            i := i + 1;
          }
          assert items[..i] == items;
          if |text| < 2 {
            return Fatal(LABEL_OUT_OF_RANGE);
          }
          AccumulatedJoin(items);
          r := Ok(text[2..]);
        case Catch =>
          if edgeLabel.None? {
            return Fatal(NO_LABEL);
          }
          if !edgeLabel.value.Labels? {
            return Fatal(LABEL_NOT_A_LIST);
          }
          var labels := edgeLabel.value.labels;
          if |labels| == 0 {
            return Undefined("first element of an empty label list");
          }
          r := if labels[0].NullNodecl? then Ok("...") else Ok(labels[0].symbolName);
        case GotoEdge =>
          if edgeLabel.None? {
            return Fatal(NO_LABEL);
          }
          if !edgeLabel.value.Text? {
            return Fatal(LABEL_NOT_A_STRING);
          }
          r := Ok(edgeLabel.value.text);
      }
    }

    /** set_label: stores the string; nothing else changes. */
    method SetLabel(s: string)
      modifies this`edgeLabel
      ensures edgeLabel == Some(Text(s))
    {
      edgeLabel := Some(Text(s));
    }

    /** set_true_edge: the edge becomes a TRUE edge labelled "TRUE". */
    method SetTrueEdge()
      modifies this`edgeType
      ensures edgeType == Some(TrueEdge)
      ensures IsOfType(TrueEdge) == Ok(true) && LabelOf(edgeType, edgeLabel) == Ok("TRUE")
    {
      edgeType := Some(TrueEdge);
    }

    /** set_executable: records the value. */
    method SetExecutable(value: bool)
      modifies this`executable
      ensures executable == Some(value)
      ensures IsExecutable() == Ok(value)
    {
      executable := Some(value);
    }

    /** is_executable: fatal until set_executable has been called, then
      * the last value set. */
    function IsExecutable(): (r: Outcome<bool>)
      reads this
      ensures r.Ok? <==> executable.Some?
      ensures r.Ok? ==> r.value == executable.value
      ensures !r.Ok? ==> r == Fatal(NO_EXECUTION_INFO)
    {
      if executable.Some? then Ok(executable.value) else Fatal(NO_EXECUTION_INFO)
    }
  }
}
