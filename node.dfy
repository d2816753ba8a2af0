/**
 * Nodes of the parallel control-flow graph (tl-node.cpp): an id, the
 * ordered lists of entry and exit edges, and the attributes of the node's
 * key/value store, each of which may be absent. Reading an attribute
 * that is not there through `get_data` is taken to be fatal.
 */
module PcfgNode {
  import opened Wrappers
  import opened Values
  import opened PcfgEdge

  const WRONG_NODE_KIND: string := "Unexpected node type"
  const NOT_A_GRAPH: string := "Unexpected node type. GRAPH_NODE expected."
  const NOT_A_LOOP: string := "Unexpected node type. LOOP expected."
  const GRAPH_ON_LATTICE: string := "Requesting Lattice Cell Values list in a GRAPH_NODE. Simple node expected."
  const IV_ALREADY_PRESENT: string := "Trying to insert the Induction Variable in a loop that already contains this variable"
  const MISSING_ATTRIBUTE: string := "no such attribute stored in the node"
  const NO_GRAPH_TYPE: string := "The node has no graph type assigned, this operation is not allowed"

  datatype NodeType =
    | BasicEntryNode | BasicExitNode | BasicNormalNode | BasicLabeledNode
    | BasicBreakNode | BasicContinueNode | BasicGotoNode | BasicFunctionCallNode
    | BasicPragmaDirectiveNode | FlushNode | BarrierNode | TaskwaitNode
    | GraphNode | UnclassifiedNode

  datatype GraphType = SplitStmt | FuncCall | CondExpr | Loop | OmpPragma | Task | ExtensibleGraph

  datatype LoopType = ForLoop | WhileLoop | DoWhileLoop

  datatype InductionVariableData = InductionVariableData(lowerBound: Nodecl, upperBound: Nodecl, increment: Nodecl)

  datatype LatticeCellValue = LatticeCellValue(variable: Nodecl, value: Nodecl)

  /** The attributes of a node that the modelled operations read and
    * write; `None` is a key that has not been set. */
  datatype Attributes = Attributes(
    outerNode: Option<Node>,
    entryNode: Option<Node>,
    exitNode: Option<Node>,
    statements: Option<seq<Nodecl>>,
    graphType: Option<GraphType>,
    loopType: Option<LoopType>,
    nodeLabel: Option<string>,
    latticeValues: Option<seq<LatticeCellValue>>,
    inductionVariables: Option<map<Nodecl, InductionVariableData>>,
    reachingDefinitions: Option<map<Nodecl, Nodecl>>,
    auxReachingDefinitions: Option<map<Nodecl, Nodecl>>,
    liveIn: Option<set<Nodecl>>,
    liveOut: Option<set<Nodecl>>,
    ueVars: Option<set<Nodecl>>,
    killedVars: Option<set<Nodecl>>)

  const NoAttributes: Attributes :=
    Attributes(None, None, None, None, None, None, None, None, None, None, None, None, None, None, None)

  /** The names get_graph_type_as_string gives each graph type. */
  function GraphTypeNameOf(g: GraphType): (r: string)
    ensures r != ""
  {
    match g
    case SplitStmt => "SPLIT_STMT"
    case FuncCall => "FUNC_CALL"
    case CondExpr => "COND_EXPR"
    case Loop => "LOOP"
    case OmpPragma => "OMP_PRAGMA"
    case Task => "TASK"
    case ExtensibleGraph => "EXTENSIBLE_GRAPH"
  }

  /** Distinct graph types have distinct names, so the name gives the type back. */
  lemma GraphTypeNamesDistinct(g1: GraphType, g2: GraphType)
    ensures GraphTypeNameOf(g1) == GraphTypeNameOf(g2) <==> g1 == g2
  {
  }

  /** Ut::ext_sym_set_contains_englobing_nodecl: whether a set already
    * holds the symbol or one that contains it. It is not part of this
    * model, so it is a parameter of the operations that use it. */
  type Englobes = (Nodecl, set<Nodecl>) -> bool

  function SetOrEmpty(o: Option<set<Nodecl>>): set<Nodecl> {
    if o.Some? then o.value else {}
  }

  function MapOrEmpty<V>(o: Option<map<Nodecl, V>>): map<Nodecl, V> {
    if o.Some? then o.value else map[]
  }

  /** The node kinds that hold statements. */
  predicate HoldsStatements(t: NodeType) {
    t in {BasicNormalNode, BasicFunctionCallNode, BasicLabeledNode, BasicBreakNode, BasicContinueNode, BasicGotoNode}
  }

  /** The node kinds that hold a label symbol. */
  predicate HoldsLabel(t: NodeType) {
    t == BasicGotoNode || t == BasicLabeledNode
  }

  // ---------------------------------------------------------------------
  // Edge lists

  /** The source of every edge, in edge order. */
  function Sources(edges: seq<Edge<Node>>): (r: seq<Node>)
    ensures |r| == |edges| && forall i :: 0 <= i < |edges| ==> r[i] == edges[i].source
  {
    seq(|edges|, i requires 0 <= i < |edges| => edges[i].source)
  }

  /** The target of every edge, in edge order. */
  function Targets(edges: seq<Edge<Node>>): (r: seq<Node>)
    ensures |r| == |edges| && forall i :: 0 <= i < |edges| ==> r[i] == edges[i].target
  {
    seq(|edges|, i requires 0 <= i < |edges| => edges[i].target)
  }

  /** The position of the first occurrence of `n`, or the length when
    * there is none. */
  function FirstIndex(nodes: seq<Node>, n: Node): (k: nat)
    ensures k <= |nodes|
    ensures k < |nodes| ==> nodes[k] == n
    ensures forall j :: 0 <= j < k ==> nodes[j] != n
    ensures k == |nodes| <==> n !in nodes
  {
    if |nodes| == 0 then 0
    else if nodes[0] == n then 0
    else 1 + FirstIndex(nodes[1..], n)
  }

  /** The edges without the first one whose end (as listed in `ends`)
    * is `n`; all of them when there is none. */
  function EraseFirst(edges: seq<Edge<Node>>, ends: seq<Node>, n: Node): seq<Edge<Node>>
    requires |ends| == |edges|
  {
    var k := FirstIndex(ends, n);
    if k == |edges| then edges else edges[..k] + edges[k + 1..]
  }

  /** Erasing removes exactly one edge, the first whose end is `n`,
    * keeping the order of the others; with no such edge nothing changes. */
  lemma EraseFirstRemovesOne(edges: seq<Edge<Node>>, ends: seq<Node>, n: Node)
    requires |ends| == |edges|
    ensures n !in ends ==> EraseFirst(edges, ends, n) == edges
    ensures n in ends ==>
      var k := FirstIndex(ends, n);
      var r := EraseFirst(edges, ends, n);
      |r| == |edges| - 1 && ends[k] == n
      && (forall j :: 0 <= j < k ==> r[j] == edges[j] && ends[j] != n)
      && (forall j :: k <= j < |r| ==> r[j] == edges[j + 1])
      && multiset(r) + multiset{edges[k]} == multiset(edges)
  {
    if n in ends {
      var k := FirstIndex(ends, n);
      assert edges == edges[..k] + [edges[k]] + edges[k + 1..];
    }
  }

  // ---------------------------------------------------------------------
  // Maps and sets of the data-flow attributes

  /** set_reaching_definition_list: the incoming definitions win. */
  function Merged(current: map<Nodecl, Nodecl>, incoming: map<Nodecl, Nodecl>): (r: map<Nodecl, Nodecl>)
    ensures r.Keys == current.Keys + incoming.Keys
    ensures forall k :: k in incoming ==> r[k] == incoming[k]
    ensures forall k :: k in current && k !in incoming ==> r[k] == current[k]
  {
    current + incoming
  }

  /** rename_reaching_defintion_var: the definition of `oldVar` moves to
    * `newVar`; without one the map is unchanged. */
  function Renamed(m: map<Nodecl, Nodecl>, oldVar: Nodecl, newVar: Nodecl): (r: map<Nodecl, Nodecl>)
    ensures oldVar !in m ==> r == m
    ensures oldVar in m ==>
      r.Keys == m.Keys - {oldVar} + {newVar} && r[newVar] == m[oldVar]
      && forall k :: k in m && k != oldVar && k != newVar ==> r[k] == m[k]
  {
    if oldVar in m then (m - {oldVar})[newVar := m[oldVar]] else m
  }

  /** The new symbols a set overload of set_ue_var or set_killed_var
    * adds: those not englobed by the set as it was before the call. */
  function WithPurged(current: set<Nodecl>, incoming: set<Nodecl>, englobes: Englobes): (r: set<Nodecl>)
    ensures current <= r && r - current <= incoming
    ensures forall x :: x in incoming ==> (x in r <==> x in current || !englobes(x, current))
  {
    current + set x | x in incoming && !englobes(x, current)
  }

  /** A single-symbol set_ue_var or set_killed_var: the symbol is added
    * unless the set englobes it, and then the attribute is left alone. */
  function WithSymbol(current: Option<set<Nodecl>>, x: Nodecl, englobes: Englobes): (r: Option<set<Nodecl>>)
    ensures englobes(x, SetOrEmpty(current)) ==> r == current
    ensures !englobes(x, SetOrEmpty(current)) ==> r == Some(SetOrEmpty(current) + {x})
  {
    if englobes(x, SetOrEmpty(current)) then current else Some(SetOrEmpty(current) + {x})
  }

  /** The shared id counter of the graph builder, passed by reference. */
  class IdCounter {
    var value: int

    constructor (start: int)
      ensures value == start
    {
      value := start;
    }
  }

  class Node {
    var id: int
    var entryEdges: seq<Edge<Node>>
    var exitEdges: seq<Edge<Node>>
    var visited: bool
    var visitedAux: bool
    var depsComputed: bool
    var nodeType: NodeType
    var attributes: Attributes

    /** Node::Node(): the empty node. */
    constructor ()
      ensures id == -1 && nodeType == UnclassifiedNode && IsEmptyNode()
      ensures entryEdges == [] && exitEdges == [] && attributes == NoAttributes && !IsConnected()
      ensures !visited && !visitedAux && !depsComputed
    {
      id := -1;
      entryEdges := [];
      exitEdges := [];
      visited := false;
      visitedAux := false;
      depsComputed := false;
      nodeType := UnclassifiedNode;
      attributes := NoAttributes;
    }

    /** Node::Node(int& id, Node_type, Node*): takes the next id of the
      * counter; a graph node also creates its entry node, which takes
      * the id after that, and its exit node, numbered -1 from a counter
      * of its own. */
    constructor Counted(counter: IdCounter, ntype: NodeType, outer: Option<Node>)
      modifies counter
      decreases if ntype == GraphNode then 1 else 0
      ensures id == old(counter.value) + 1 && nodeType == ntype
      ensures entryEdges == [] && exitEdges == [] && !visited && !visitedAux && !depsComputed
      ensures ntype != GraphNode ==>
        counter.value == old(counter.value) + 1 && attributes == NoAttributes.(outerNode := outer)
      ensures ntype == GraphNode ==>
        && counter.value == old(counter.value) + 2
        && attributes.entryNode.Some? && attributes.exitNode.Some?
        && attributes == NoAttributes.(outerNode := outer, entryNode := attributes.entryNode, exitNode := attributes.exitNode)
        && fresh(attributes.entryNode.value) && fresh(attributes.exitNode.value)
        && attributes.entryNode.value.id == old(counter.value) + 2
        && attributes.entryNode.value.nodeType == BasicEntryNode
        && attributes.exitNode.value.id == -1
        && attributes.exitNode.value.nodeType == BasicExitNode
    {
      id := counter.value + 1;
      counter.value := counter.value + 1;
      entryEdges := [];
      exitEdges := [];
      visited := false;
      visitedAux := false;
      depsComputed := false;
      nodeType := ntype;
      if ntype == GraphNode {
        var entry := new Node.Counted(counter, BasicEntryNode, None);
        var exitCounter := new IdCounter(-2);
        var exit := new Node.Counted(exitCounter, BasicExitNode, None);
        attributes := NoAttributes.(outerNode := outer, entryNode := Some(entry), exitNode := Some(exit));
      } else {
        attributes := NoAttributes.(outerNode := outer);
      }
    }

    /** Node::Node(int& id, Node_type, Node*, ObjectList<NodeclBase>):
      * takes the next id and stores the statements; no inner entry or
      * exit node is created, whatever the kind. */
    constructor WithStatements(counter: IdCounter, ntype: NodeType, outer: Option<Node>, stmts: seq<Nodecl>)
      modifies counter
      ensures id == old(counter.value) + 1 && counter.value == id && nodeType == ntype
      ensures entryEdges == [] && exitEdges == [] && !visited && !visitedAux && !depsComputed
      ensures attributes == NoAttributes.(outerNode := outer, statements := Some(stmts))
    {
      id := counter.value + 1;
      counter.value := counter.value + 1;
      entryEdges := [];
      exitEdges := [];
      visited := false;
      visitedAux := false;
      depsComputed := false;
      nodeType := ntype;
      attributes := NoAttributes.(outerNode := outer, statements := Some(stmts));
    }

    /** Node::Node(int& id, Node_type, Node*, NodeclBase): the same with
      * a one-statement list. */
    constructor WithStatement(counter: IdCounter, ntype: NodeType, outer: Option<Node>, stmt: Nodecl)
      modifies counter
      ensures id == old(counter.value) + 1 && counter.value == id && nodeType == ntype
      ensures entryEdges == [] && exitEdges == [] && !visited && !visitedAux && !depsComputed
      ensures attributes == NoAttributes.(outerNode := outer, statements := Some([stmt]))
    {
      id := counter.value + 1;
      counter.value := counter.value + 1;
      entryEdges := [];
      exitEdges := [];
      visited := false;
      visitedAux := false;
      depsComputed := false;
      nodeType := ntype;
      attributes := NoAttributes.(outerNode := outer, statements := Some([stmt]));
    }

    /** operator==: nodes are the same when their ids are. */
    predicate SameNode(other: Node)
      reads this, other
      ensures other == this ==> SameNode(other)
    {
      id == other.id
    }

    /** is_empty_node: the node the default constructor makes. */
    predicate IsEmptyNode()
      reads this
      ensures IsEmptyNode() ==> id < 0 && nodeType != GraphNode
    {
      id == -1 && nodeType == UnclassifiedNode
    }

    /** set_id: renumbers the node. */
    method SetId(newId: int)
      modifies this`id
      ensures id == newId
    {
      id := newId;
    }

    /** is_connected: the node has an entry or an exit edge. */
    predicate IsConnected()
      reads this
      ensures IsConnected() <==> |entryEdges| + |exitEdges| > 0
    {
      entryEdges != [] || exitEdges != []
    }

    /** set_entry_edge: appends; the node is then connected. */
    method SetEntryEdge(e: Edge<Node>)
      modifies this`entryEdges
      ensures entryEdges == old(entryEdges) + [e]
      ensures IsConnected()
    {
      entryEdges := entryEdges + [e];
    }

    /** set_exit_edge: appends; the node is then connected. */
    method SetExitEdge(e: Edge<Node>)
      modifies this`exitEdges
      ensures exitEdges == old(exitEdges) + [e]
      ensures IsConnected()
    {
      exitEdges := exitEdges + [e];
    }

    /** erase_entry_edge: removes the first entry edge coming from
      * `source`; with none, the list is unchanged. */
    method EraseEntryEdge(source: Node)
      modifies this`entryEdges
      ensures entryEdges == EraseFirst(old(entryEdges), Sources(old(entryEdges)), source)
    {
      var i := 0;
      while i < |entryEdges|
        invariant 0 <= i <= |entryEdges| && entryEdges == old(entryEdges)
        invariant forall j :: 0 <= j < i ==> entryEdges[j].source != source
      {
        if entryEdges[i].source == source {
          assert FirstIndex(Sources(entryEdges), source) == i;
          entryEdges := entryEdges[..i] + entryEdges[i + 1..];
          return;
        }
        i := i + 1;
      }
    }

    /** erase_exit_edge: removes the first exit edge going to `target`;
      * with none, the list is unchanged. */
    method EraseExitEdge(target: Node)
      modifies this`exitEdges
      ensures exitEdges == EraseFirst(old(exitEdges), Targets(old(exitEdges)), target)
    {
      var i := 0;
      while i < |exitEdges|
        invariant 0 <= i <= |exitEdges| && exitEdges == old(exitEdges)
        invariant forall j :: 0 <= j < i ==> exitEdges[j].target != target
      {
        if exitEdges[i].target == target {
          assert FirstIndex(Targets(exitEdges), target) == i;
          exitEdges := exitEdges[..i] + exitEdges[i + 1..];
          return;
        }
        i := i + 1;
      }
    }

    /** get_parents: the sources of the entry edges, in order. */
    method GetParents() returns (r: seq<Node>)
      ensures r == Sources(entryEdges)
    {
      r := [];
      var i := 0;
      while i < |entryEdges|
        invariant 0 <= i <= |entryEdges|
        invariant r == Sources(entryEdges[..i])
      {
        assert Sources(entryEdges[..i + 1]) == Sources(entryEdges[..i]) + [entryEdges[i].source];
        r := r + [entryEdges[i].source];
        i := i + 1;
      }
      assert entryEdges[..i] == entryEdges;
    }

    /** get_children: the targets of the exit edges, in order. */
    method GetChildren() returns (r: seq<Node>)
      ensures r == Targets(exitEdges)
    {
      r := [];
      var i := 0;
      while i < |exitEdges|
        invariant 0 <= i <= |exitEdges|
        invariant r == Targets(exitEdges[..i])
      {
        assert Targets(exitEdges[..i + 1]) == Targets(exitEdges[..i]) + [exitEdges[i].target];
        r := r + [exitEdges[i].target];
        i := i + 1;
      }
      assert exitEdges[..i] == exitEdges;
    }

    /** get_entry_edge_types: the type of every entry edge, in order. */
    method GetEntryEdgeTypes() returns (r: seq<EdgeType>)
      ensures |r| == |entryEdges| && forall i :: 0 <= i < |r| ==> r[i] == entryEdges[i].Type()
    {
      r := [];
      var i := 0;
      while i < |entryEdges|
        invariant 0 <= i <= |entryEdges|
        invariant |r| == i && forall j :: 0 <= j < i ==> r[j] == entryEdges[j].Type()
      {
        r := r + [entryEdges[i].Type()];
        i := i + 1;
      }
    }

    /** get_exit_edge_types: the type of every exit edge, in order. */
    method GetExitEdgeTypes() returns (r: seq<EdgeType>)
      ensures |r| == |exitEdges| && forall i :: 0 <= i < |r| ==> r[i] == exitEdges[i].Type()
    {
      r := [];
      var i := 0;
      while i < |exitEdges|
        invariant 0 <= i <= |exitEdges|
        invariant |r| == i && forall j :: 0 <= j < i ==> r[j] == exitEdges[j].Type()
      {
        r := r + [exitEdges[i].Type()];
        i := i + 1;
      }
    }

    /** get_entry_edge_labels: the label of every entry edge, in order. */
    method GetEntryEdgeLabels() returns (r: seq<Outcome<string>>)
      ensures |r| == |entryEdges|
      ensures forall i :: 0 <= i < |r| ==> r[i] == LabelOf(entryEdges[i].edgeType, entryEdges[i].edgeLabel)
    {
      r := [];
      var i := 0;
      while i < |entryEdges|
        invariant 0 <= i <= |entryEdges|
        invariant |r| == i
        invariant forall j :: 0 <= j < i ==> r[j] == LabelOf(entryEdges[j].edgeType, entryEdges[j].edgeLabel)
      {
        var text := entryEdges[i].GetLabel();
        r := r + [text];
        i := i + 1;
      }
    }

    /** get_exit_edge_labels: the label of every exit edge, in order. */
    method GetExitEdgeLabels() returns (r: seq<Outcome<string>>)
      ensures |r| == |exitEdges|
      ensures forall i :: 0 <= i < |r| ==> r[i] == LabelOf(exitEdges[i].edgeType, exitEdges[i].edgeLabel)
    {
      r := [];
      var i := 0;
      while i < |exitEdges|
        invariant 0 <= i <= |exitEdges|
        invariant |r| == i
        invariant forall j :: 0 <= j < i ==> r[j] == LabelOf(exitEdges[j].edgeType, exitEdges[j].edgeLabel)
      {
        var text := exitEdges[i].GetLabel();
        r := r + [text];
        i := i + 1;
      }
    }

    /** get_exit_edge: the first exit edge whose target has the id of
      * `target`, or null. */
    method GetExitEdge(target: Node) returns (r: Edge?<Node>)
      ensures r == null <==> forall k :: 0 <= k < |exitEdges| ==> exitEdges[k].target.id != target.id
      ensures r != null ==>
        exists k :: 0 <= k < |exitEdges| && exitEdges[k] == r && r.target.id == target.id
          && forall j :: 0 <= j < k ==> exitEdges[j].target.id != target.id
    {
      var wanted := target.id;
      var i := 0;
      while i < |exitEdges|
        invariant 0 <= i <= |exitEdges|
        invariant forall j :: 0 <= j < i ==> exitEdges[j].target.id != wanted
      {
        if exitEdges[i].target.id == wanted {
          return exitEdges[i];
        }
        i := i + 1;
      }
      return null;
    }

    /** has_child: some exit edge reaches a node with the id of `n`. */
    method HasChild(n: Node) returns (r: bool)
      ensures r <==> exists k :: 0 <= k < |exitEdges| && exitEdges[k].target.id == n.id
    {
      var wanted := n.id;
      r := false;
      var i := 0;
      while i < |exitEdges|
        invariant 0 <= i <= |exitEdges|
        invariant forall j :: 0 <= j < i ==> exitEdges[j].target.id != wanted
      {
        if exitEdges[i].target.id == wanted {
          return true;
        }
        i := i + 1;
      }
    }

    /** has_parent: some entry edge comes from a node with the id of `n`. */
    method HasParent(n: Node) returns (r: bool)
      ensures r <==> exists k :: 0 <= k < |entryEdges| && entryEdges[k].source.id == n.id
    {
      var wanted := n.id;
      r := false;
      var i := 0;
      while i < |entryEdges|
        invariant 0 <= i <= |entryEdges|
        invariant forall j :: 0 <= j < i ==> entryEdges[j].source.id != wanted
      {
        if entryEdges[i].source.id == wanted {
          return true;
        }
        i := i + 1;
      }
    }

    // -------------------------------------------------------------------
    // Graph attributes and kind-guarded setters

    /** get_graph_type: only graph nodes have one. */
    function GraphTypeOf(): (r: Outcome<GraphType>)
      reads this
      ensures r.Ok? <==> nodeType == GraphNode && attributes.graphType.Some?
      ensures r.Ok? ==> r.value == attributes.graphType.value
    {
      if nodeType != GraphNode then Fatal(NOT_A_GRAPH)
      else if attributes.graphType.None? then Fatal(MISSING_ATTRIBUTE)
      else Ok(attributes.graphType.value)
    }

    /** get_graph_type_as_string: the name of the stored graph type, fatal
      * when none is stored; unlike get_graph_type, the node's kind is not
      * looked at. */
    function GraphTypeName(): (r: Outcome<string>)
      reads this
      ensures r.Ok? <==> attributes.graphType.Some?
      ensures !r.Ok? ==> r == Fatal(NO_GRAPH_TYPE)
      ensures r.Ok? ==> r.value != "" && r.value == GraphTypeNameOf(attributes.graphType.value)
      ensures nodeType == GraphNode && r.Ok? ==> GraphTypeOf() == Ok(attributes.graphType.value)
    {
      if attributes.graphType.None? then Fatal(NO_GRAPH_TYPE)
      else Ok(GraphTypeNameOf(attributes.graphType.value))
    }

    /** is_loop_node: a graph node of type LOOP; asking a graph node
      * without a graph type is fatal. */
    function IsLoopNode(): (r: Outcome<bool>)
      reads this
      ensures nodeType != GraphNode ==> r == Ok(false)
      ensures r == Ok(true) <==> nodeType == GraphNode && attributes.graphType == Some(Loop)
    {
      if nodeType != GraphNode then Ok(false)
      else if attributes.graphType.None? then Fatal(MISSING_ATTRIBUTE)
      else Ok(attributes.graphType.value == Loop)
    }

    /** is_task_node: a graph node of type TASK; asking a graph node
      * without a graph type is fatal. */
    function IsTaskNode(): (r: Outcome<bool>)
      reads this
      ensures nodeType != GraphNode ==> r == Ok(false)
      ensures r == Ok(true) <==> nodeType == GraphNode && attributes.graphType == Some(Task)
    {
      if nodeType != GraphNode then Ok(false)
      else if attributes.graphType.None? then Fatal(MISSING_ATTRIBUTE)
      else Ok(attributes.graphType.value == Task)
    }

    /** set_graph_type: only on graph nodes. */
    method SetGraphType(t: GraphType) returns (r: Outcome<()>)
      modifies this`attributes
      ensures r.Ok? <==> nodeType == GraphNode
      ensures r.Ok? ==> attributes == old(attributes).(graphType := Some(t)) && GraphTypeOf() == Ok(t)
      ensures !r.Ok? ==> r == Fatal(NOT_A_GRAPH) && attributes == old(attributes)
    {
      if nodeType != GraphNode {
        return Fatal(NOT_A_GRAPH);
      }
      attributes := attributes.(graphType := Some(t));
      r := Ok(());
    }

    /** get_graph_entry_node: only on graph nodes. */
    function GraphEntryNode(): (r: Outcome<Node>)
      reads this
      ensures r.Ok? <==> nodeType == GraphNode && attributes.entryNode.Some?
      ensures r.Ok? ==> r.value == attributes.entryNode.value
    {
      if nodeType != GraphNode then Fatal(NOT_A_GRAPH)
      else if attributes.entryNode.None? then Fatal(MISSING_ATTRIBUTE)
      else Ok(attributes.entryNode.value)
    }

    /** get_graph_exit_node: only on graph nodes. */
    function GraphExitNode(): (r: Outcome<Node>)
      reads this
      ensures r.Ok? <==> nodeType == GraphNode && attributes.exitNode.Some?
      ensures r.Ok? ==> r.value == attributes.exitNode.value
    {
      if nodeType != GraphNode then Fatal(NOT_A_GRAPH)
      else if attributes.exitNode.None? then Fatal(MISSING_ATTRIBUTE)
      else Ok(attributes.exitNode.value)
    }

    /** set_graph_entry_node: the new node must be an entry node and this
      * one a graph node. */
    method SetGraphEntryNode(n: Node) returns (r: Outcome<()>)
      modifies this`attributes
      ensures r.Ok? <==> n.nodeType == BasicEntryNode && nodeType == GraphNode
      ensures r.Ok? ==> attributes == old(attributes).(entryNode := Some(n))
      ensures !r.Ok? ==> r.Fatal? && attributes == old(attributes)
    {
      if n.nodeType != BasicEntryNode {
        return Fatal(WRONG_NODE_KIND);
      }
      if nodeType != GraphNode {
        return Fatal(NOT_A_GRAPH);
      }
      attributes := attributes.(entryNode := Some(n));
      r := Ok(());
    }

    /** set_graph_exit_node: the new node must be an exit node and this
      * one a graph node. */
    method SetGraphExitNode(n: Node) returns (r: Outcome<()>)
      modifies this`attributes
      ensures r.Ok? <==> n.nodeType == BasicExitNode && nodeType == GraphNode
      ensures r.Ok? ==> attributes == old(attributes).(exitNode := Some(n))
      ensures !r.Ok? ==> r.Fatal? && attributes == old(attributes)
    {
      if n.nodeType != BasicExitNode {
        return Fatal(WRONG_NODE_KIND);
      }
      if nodeType != GraphNode {
        return Fatal(NOT_A_GRAPH);
      }
      attributes := attributes.(exitNode := Some(n));
      r := Ok(());
    }

    /** set_outer_node: the enclosing node must be a graph node. */
    method SetOuterNode(n: Node) returns (r: Outcome<()>)
      modifies this`attributes
      ensures r.Ok? <==> n.nodeType == GraphNode
      ensures r.Ok? ==> attributes == old(attributes).(outerNode := Some(n)) && OuterNode() == Some(n)
      ensures !r.Ok? ==> r == Fatal(NOT_A_GRAPH) && attributes == old(attributes)
    {
      if n.nodeType != GraphNode {
        return Fatal(NOT_A_GRAPH);
      }
      attributes := attributes.(outerNode := Some(n));
      r := Ok(());
    }

    /** get_outer_node: the enclosing graph node, or none (NULL) when
      * none was stored. */
    function OuterNode(): (r: Option<Node>)
      reads this
      ensures r.Some? <==> attributes.outerNode.Some?
      ensures r.Some? ==> r.value == attributes.outerNode.value
    {
      attributes.outerNode
    }

    /** get_statements: the stored list, empty when there is none. */
    function Statements(): (r: seq<Nodecl>)
      reads this
      ensures attributes.statements.None? ==> r == []
      ensures attributes.statements.Some? ==> r == attributes.statements.value
    {
      if attributes.statements.Some? then attributes.statements.value else []
    }

    /** set_statements: only on normal, function call, labeled, break,
      * continue and goto nodes. */
    method SetStatements(stmts: seq<Nodecl>) returns (r: Outcome<()>)
      modifies this`attributes
      ensures r.Ok? <==> HoldsStatements(nodeType)
      ensures r.Ok? ==> attributes == old(attributes).(statements := Some(stmts)) && Statements() == stmts
      ensures !r.Ok? ==> r == Fatal(WRONG_NODE_KIND) && attributes == old(attributes)
    {
      if !HoldsStatements(nodeType) {
        return Fatal(WRONG_NODE_KIND);
      }
      attributes := attributes.(statements := Some(stmts));
      r := Ok(());
    }

    /** get_label: only goto and labeled nodes have a label symbol. */
    function Label(): (r: Outcome<string>)
      reads this
      ensures r.Ok? <==> HoldsLabel(nodeType) && attributes.nodeLabel.Some?
      ensures r.Ok? ==> r.value == attributes.nodeLabel.value
    {
      if !HoldsLabel(nodeType) then Fatal(WRONG_NODE_KIND)
      else if attributes.nodeLabel.None? then Fatal(MISSING_ATTRIBUTE)
      else Ok(attributes.nodeLabel.value)
    }

    /** set_label: only on goto and labeled nodes. */
    method SetLabel(s: string) returns (r: Outcome<()>)
      modifies this`attributes
      ensures r.Ok? <==> HoldsLabel(nodeType)
      ensures r.Ok? ==> attributes == old(attributes).(nodeLabel := Some(s)) && Label() == Ok(s)
      ensures !r.Ok? ==> r == Fatal(WRONG_NODE_KIND) && attributes == old(attributes)
    {
      if !HoldsLabel(nodeType) {
        return Fatal(WRONG_NODE_KIND);
      }
      attributes := attributes.(nodeLabel := Some(s));
      r := Ok(());
    }

    /** get_loop_node_type: only on graph nodes of type LOOP. */
    function LoopNodeType(): (r: Outcome<LoopType>)
      reads this
      ensures r.Ok? <==> IsLoopNode() == Ok(true) && attributes.loopType.Some?
      ensures r.Ok? ==> r.value == attributes.loopType.value
    {
      if nodeType != GraphNode then Fatal(NOT_A_GRAPH)
      else if attributes.graphType.None? then Fatal(MISSING_ATTRIBUTE)
      else if attributes.graphType.value != Loop then Fatal(NOT_A_LOOP)
      else if attributes.loopType.None? then Fatal(MISSING_ATTRIBUTE)
      else Ok(attributes.loopType.value)
    }

    /** set_loop_node_type: only on graph nodes of type LOOP. */
    method SetLoopNodeType(t: LoopType) returns (r: Outcome<()>)
      modifies this`attributes
      ensures r.Ok? <==> IsLoopNode() == Ok(true)
      ensures r.Ok? ==> attributes == old(attributes).(loopType := Some(t)) && LoopNodeType() == Ok(t)
      ensures !r.Ok? ==> r.Fatal? && attributes == old(attributes)
    {
      if nodeType != GraphNode {
        return Fatal(NOT_A_GRAPH);
      }
      if attributes.graphType.None? {
        return Fatal(MISSING_ATTRIBUTE);
      }
      if attributes.graphType.value != Loop {
        return Fatal(NOT_A_LOOP);
      }
      attributes := attributes.(loopType := Some(t));
      r := Ok(());
    }

    /** get_lattice_val: the stored values of a simple node, in order. */
    function LatticeValues(): (r: Outcome<seq<LatticeCellValue>>)
      reads this
      ensures r.Ok? <==> nodeType != GraphNode
      ensures r.Ok? && attributes.latticeValues.None? ==> r.value == []
      ensures r.Ok? && attributes.latticeValues.Some? ==> r.value == attributes.latticeValues.value
    {
      if nodeType == GraphNode then Fatal(GRAPH_ON_LATTICE)
      else if attributes.latticeValues.Some? then Ok(attributes.latticeValues.value)
      else Ok([])
    }

    /** set_lattice_val: appends a value, never on a graph node. */
    method SetLatticeVal(v: LatticeCellValue) returns (r: Outcome<()>)
      modifies this`attributes
      ensures r.Ok? <==> old(nodeType) != GraphNode
      ensures r.Ok? ==> LatticeValues() == Ok(old(LatticeValues()).value + [v])
      ensures r.Ok? ==> attributes == old(attributes).(latticeValues := attributes.latticeValues)
      ensures !r.Ok? ==> r == Fatal(GRAPH_ON_LATTICE) && attributes == old(attributes)
    {
      if nodeType == GraphNode {
        return Fatal(GRAPH_ON_LATTICE);
      }
      var current := if attributes.latticeValues.Some? then attributes.latticeValues.value else [];
      attributes := attributes.(latticeValues := Some(current + [v]));
      r := Ok(());
    }

    /** get_induction_variables: only on graph nodes of type LOOP; empty
      * when none has been set. */
    function InductionVariables(): (r: Outcome<map<Nodecl, InductionVariableData>>)
      reads this
      ensures r.Ok? <==> IsLoopNode() == Ok(true)
      ensures r.Ok? ==> r.value == MapOrEmpty(attributes.inductionVariables)
    {
      if nodeType != GraphNode then Fatal(NOT_A_GRAPH)
      else if attributes.graphType.None? then Fatal(MISSING_ATTRIBUTE)
      else if attributes.graphType.value != Loop then Fatal(NOT_A_LOOP)
      else Ok(MapOrEmpty(attributes.inductionVariables))
    }

    /** set_induction_variable: adds one binding to a loop node; adding a
      * variable that is already there is fatal. */
    method SetInductionVariable(iv: Nodecl, data: InductionVariableData) returns (r: Outcome<()>)
      modifies this`attributes
      ensures r.Ok? <==> IsLoopNode() == Ok(true) && iv !in MapOrEmpty(old(attributes.inductionVariables))
      ensures r.Ok? ==>
        && attributes == old(attributes).(inductionVariables := Some(MapOrEmpty(old(attributes.inductionVariables))[iv := data]))
        && InductionVariables().value.Keys == old(MapOrEmpty(attributes.inductionVariables)).Keys + {iv}
      ensures !r.Ok? ==> r.Fatal? && attributes == old(attributes)
      ensures IsLoopNode() == Ok(true) && iv in MapOrEmpty(old(attributes.inductionVariables)) ==> r == Fatal(IV_ALREADY_PRESENT)
    {
      var loop := IsLoopNode();
      if !loop.Ok? {
        return Fatal(MISSING_ATTRIBUTE);
      }
      if !loop.value {
        return Fatal(NOT_A_LOOP);
      }
      var ivs := MapOrEmpty(attributes.inductionVariables);
      if iv in ivs {
        return Fatal(IV_ALREADY_PRESENT);
      }
      attributes := attributes.(inductionVariables := Some(ivs[iv := data]));
      r := Ok(());
    }

    // -------------------------------------------------------------------
    // Reaching definitions

    /** get_reaching_definitions: empty when none has been set. */
    function ReachingDefinitions(): (r: map<Nodecl, Nodecl>)
      reads this
      ensures attributes.reachingDefinitions.None? ==> r == map[]
      ensures attributes.reachingDefinitions.Some? ==> r == attributes.reachingDefinitions.value
    {
      MapOrEmpty(attributes.reachingDefinitions)
    }

    /** set_reaching_definition: overwrites the definition of one
      * variable. */
    method SetReachingDefinition(v: Nodecl, init: Nodecl)
      modifies this`attributes
      ensures attributes == old(attributes).(reachingDefinitions := Some(old(ReachingDefinitions())[v := init]))
      ensures ReachingDefinitions()[v] == init
      ensures forall k :: k in old(ReachingDefinitions()) && k != v ==> ReachingDefinitions()[k] == old(ReachingDefinitions())[k]
    {
      attributes := attributes.(reachingDefinitions := Some(ReachingDefinitions()[v := init]));
    }

    /** set_reaching_definition_list: copies every incoming definition in,
      * one at a time, overwriting the current ones. */
    method SetReachingDefinitionList(incoming: map<Nodecl, Nodecl>)
      modifies this`attributes
      ensures attributes == old(attributes).(reachingDefinitions := Some(Merged(old(ReachingDefinitions()), incoming)))
    {
      var defs := ReachingDefinitions();
      ghost var start := defs;
      var pending := incoming.Keys;
      while pending != {}
        invariant pending <= incoming.Keys
        invariant defs == start + map k | k in incoming.Keys - pending :: incoming[k]
        decreases pending
      {
        var k :| k in pending;
        defs := defs[k := incoming[k]];
        pending := pending - {k};
      }
      assert incoming.Keys - pending == incoming.Keys;
      assert (map k | k in incoming.Keys :: incoming[k]) == incoming;
      attributes := attributes.(reachingDefinitions := Some(defs));
    }

    /** rename_reaching_defintion_var: moves the definition of `oldVar`
      * to `newVar`; without one the definitions stay as they were. */
    method RenameReachingDefinitionVar(oldVar: Nodecl, newVar: Nodecl)
      modifies this`attributes
      ensures attributes == old(attributes).(reachingDefinitions := Some(Renamed(old(ReachingDefinitions()), oldVar, newVar)))
    {
      var defs := ReachingDefinitions();
      if oldVar in defs {
        var init := defs[oldVar];
        defs := defs - {oldVar};
        defs := defs[newVar := init];
      }
      attributes := attributes.(reachingDefinitions := Some(defs));
    }

    /** unset_reaching_definition: removes the definition of one variable. */
    method UnsetReachingDefinition(v: Nodecl)
      modifies this`attributes
      ensures attributes == old(attributes).(reachingDefinitions := Some(old(ReachingDefinitions()) - {v}))
      ensures v !in ReachingDefinitions() && ReachingDefinitions().Keys == old(ReachingDefinitions()).Keys - {v}
    {
      attributes := attributes.(reachingDefinitions := Some(ReachingDefinitions() - {v}));
    }

    /** get_auxiliar_reaching_definitions: empty when none has been set. */
    function AuxiliarReachingDefinitions(): (r: map<Nodecl, Nodecl>)
      reads this
      ensures attributes.auxReachingDefinitions.None? ==> r == map[]
      ensures attributes.auxReachingDefinitions.Some? ==> r == attributes.auxReachingDefinitions.value
    {
      MapOrEmpty(attributes.auxReachingDefinitions)
    }

    /** set_auxiliar_reaching_definition: overwrites one auxiliary
      * definition. */
    method SetAuxiliarReachingDefinition(v: Nodecl, init: Nodecl)
      modifies this`attributes
      ensures attributes == old(attributes).(auxReachingDefinitions := Some(old(AuxiliarReachingDefinitions())[v := init]))
    {
      attributes := attributes.(auxReachingDefinitions := Some(AuxiliarReachingDefinitions()[v := init]));
    }

    /** set_graph_node_reaching_definitions: a graph node takes the
      * reaching definitions of its exit node. */
    method SetGraphNodeReachingDefinitions() returns (r: Outcome<()>)
      modifies this`attributes
      ensures r.Ok? <==>
        old(GraphExitNode().Ok? && GraphExitNode().value.attributes.reachingDefinitions.Some?)
      ensures r.Ok? ==>
        attributes == old(attributes.(reachingDefinitions := GraphExitNode().value.attributes.reachingDefinitions))
      ensures !r.Ok? ==> r.Fatal? && attributes == old(attributes)
    {
      if nodeType != GraphNode {
        return Fatal(NOT_A_GRAPH);
      }
      if attributes.exitNode.None? {
        return Fatal(MISSING_ATTRIBUTE);
      }
      var exit := attributes.exitNode.value;
      if exit.attributes.reachingDefinitions.None? {
        return Fatal(MISSING_ATTRIBUTE);
      }
      attributes := attributes.(reachingDefinitions := exit.attributes.reachingDefinitions);
      r := Ok(());
    }

    // -------------------------------------------------------------------
    // Liveness, upper-exposed and killed symbols

    /** get_live_in_vars: empty when none has been set. */
    function LiveInVars(): (r: set<Nodecl>)
      reads this
      ensures attributes.liveIn.Some? ==> r == attributes.liveIn.value
      ensures attributes.liveIn.None? ==> r == {}
    {
      SetOrEmpty(attributes.liveIn)
    }

    /** set_live_in of one symbol: inserts it. */
    method SetLiveIn(x: Nodecl)
      modifies this`attributes
      ensures attributes == old(attributes).(liveIn := Some(old(LiveInVars()) + {x}))
    {
      attributes := attributes.(liveIn := Some(LiveInVars() + {x}));
    }

    /** set_live_in of a set: replaces the live-in set. */
    method SetLiveInSet(s: set<Nodecl>)
      modifies this`attributes
      ensures attributes == old(attributes).(liveIn := Some(s))
    {
      attributes := attributes.(liveIn := Some(s));
    }

    /** get_live_out_vars: empty when none has been set. */
    function LiveOutVars(): (r: set<Nodecl>)
      reads this
      ensures attributes.liveOut.Some? ==> r == attributes.liveOut.value
      ensures attributes.liveOut.None? ==> r == {}
    {
      SetOrEmpty(attributes.liveOut)
    }

    /** set_live_out of one symbol: inserts it. */
    method SetLiveOut(x: Nodecl)
      modifies this`attributes
      ensures attributes == old(attributes).(liveOut := Some(old(LiveOutVars()) + {x}))
    {
      attributes := attributes.(liveOut := Some(LiveOutVars() + {x}));
    }

    /** set_live_out of a set: replaces the live-out set. */
    method SetLiveOutSet(s: set<Nodecl>)
      modifies this`attributes
      ensures attributes == old(attributes).(liveOut := Some(s))
    {
      attributes := attributes.(liveOut := Some(s));
    }

    /** get_ue_vars: empty when none has been set. */
    function UeVars(): (r: set<Nodecl>)
      reads this
      ensures attributes.ueVars.Some? ==> r == attributes.ueVars.value
      ensures attributes.ueVars.None? ==> r == {}
    {
      SetOrEmpty(attributes.ueVars)
    }

    /** set_ue_var of one symbol: added unless already englobed. */
    method SetUeVar(x: Nodecl, englobes: Englobes)
      modifies this`attributes
      ensures attributes == old(attributes).(ueVars := WithSymbol(old(attributes.ueVars), x, englobes))
    {
      var current := UeVars();
      if !englobes(x, current) {
        attributes := attributes.(ueVars := Some(current + {x}));
      }
    }

    /** set_ue_var of a set: adds the symbols the set as it was does not
      * englobe. */
    method SetUeVars(incoming: set<Nodecl>, englobes: Englobes)
      modifies this`attributes
      ensures attributes == old(attributes).(ueVars := Some(WithPurged(old(UeVars()), incoming, englobes)))
    {
      var current := UeVars();
      var purged := Purge(current, incoming, englobes);
      attributes := attributes.(ueVars := Some(current + purged));
    }

    /** unset_ue_var: removes one symbol. */
    method UnsetUeVar(x: Nodecl)
      modifies this`attributes
      ensures attributes == old(attributes).(ueVars := Some(old(UeVars()) - {x}))
    {
      attributes := attributes.(ueVars := Some(UeVars() - {x}));
    }

    /** get_killed_vars: empty when none has been set. */
    function KilledVars(): (r: set<Nodecl>)
      reads this
      ensures attributes.killedVars.Some? ==> r == attributes.killedVars.value
      ensures attributes.killedVars.None? ==> r == {}
    {
      SetOrEmpty(attributes.killedVars)
    }

    /** set_killed_var of one symbol: added unless already englobed. */
    method SetKilledVar(x: Nodecl, englobes: Englobes)
      modifies this`attributes
      ensures attributes == old(attributes).(killedVars := WithSymbol(old(attributes.killedVars), x, englobes))
    {
      var current := KilledVars();
      if !englobes(x, current) {
        attributes := attributes.(killedVars := Some(current + {x}));
      }
    }

    /** set_killed_var of a set: adds the symbols the set as it was does
      * not englobe. */
    method SetKilledVars(incoming: set<Nodecl>, englobes: Englobes)
      modifies this`attributes
      ensures attributes == old(attributes).(killedVars := Some(WithPurged(old(KilledVars()), incoming, englobes)))
    {
      var current := KilledVars();
      var purged := Purge(current, incoming, englobes);
      attributes := attributes.(killedVars := Some(current + purged));
    }

    /** unset_killed_var: removes one symbol. */
    method UnsetKilledVar(x: Nodecl)
      modifies this`attributes
      ensures attributes == old(attributes).(killedVars := Some(old(KilledVars()) - {x}))
    {
      attributes := attributes.(killedVars := Some(KilledVars() - {x}));
    }
  }

  /** The purging loop of the set overloads of set_ue_var and
    * set_killed_var: every incoming symbol that `current` does not
    * englobe, tested against `current` as it was before the call. */
  method Purge(current: set<Nodecl>, incoming: set<Nodecl>, englobes: Englobes) returns (purged: set<Nodecl>)
    ensures current + purged == WithPurged(current, incoming, englobes)
    ensures purged <= incoming && forall x :: x in incoming ==> (x in purged <==> !englobes(x, current))
  {
    purged := {};
    var pending := incoming;
    while pending != {}
      invariant pending <= incoming
      invariant purged == set x | x in incoming - pending && !englobes(x, current)
      decreases pending
    {
      var x :| x in pending;
      if !englobes(x, current) {
        purged := purged + {x};
      }
      pending := pending - {x};
    }
  }
}
