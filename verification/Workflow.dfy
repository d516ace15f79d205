/** The workflow graph a run carries. */
module Workflow {
  import opened ExecSlot
  import opened Expr

  datatype Node = Node(id: string, kind: string, name: string, config: map<string, Value>, checkpoint: bool)

  datatype Edge = Edge(source: string, target: string, when: string, kind: string,
                       carry: seq<string>, maxAttempts: int)

  datatype Graph = Graph(nodes: seq<Node>, edges: seq<Edge>)

  /** An edge without a kind is a success edge. */
  function KindOrDefault(e: Edge): string {
    if e.kind == "" then "success" else e.kind
  }

  function FindIn(nodes: seq<Node>, id: string): (r: Option<Node>)
    ensures r.Some? ==> r.value in nodes && r.value.id == id
    ensures r.None? ==> forall n :: n in nodes ==> n.id != id
  {
    if nodes == [] then None else if nodes[0].id == id then Some(nodes[0]) else FindIn(nodes[1..], id)
  }

  /** The first node with the given id. */
  function FindNode(g: Graph, id: string): (r: Option<Node>)
    ensures r.Some? ==> r.value in g.nodes && r.value.id == id
    ensures r.None? ==> forall n :: n in g.nodes ==> n.id != id
  {
    FindIn(g.nodes, id)
  }

  function EdgesFrom(edges: seq<Edge>, id: string): (r: seq<Edge>)
    ensures forall e :: e in r <==> e in edges && e.source == id
  {
    if edges == [] then []
    else (if edges[0].source == id then [edges[0]] else []) + EdgesFrom(edges[1..], id)
  }

  /** The edges leaving a node, in definition order. */
  function OutEdges(g: Graph, id: string): (r: seq<Edge>)
    ensures forall e :: e in r <==> e in g.edges && e.source == id
  {
    EdgesFrom(g.edges, id)
  }

  function FirstOfKind(nodes: seq<Node>, kind: string): (r: Option<Node>)
    ensures r.Some? ==> r.value in nodes && r.value.kind == kind
    ensures r.None? ==> forall n :: n in nodes ==> n.kind != kind
  {
    if nodes == [] then None else if nodes[0].kind == kind then Some(nodes[0]) else FirstOfKind(nodes[1..], kind)
  }

  function FirstSource(nodes: seq<Node>, edges: seq<Edge>): (r: Option<Node>)
    ensures r.Some? ==> r.value in nodes && forall e :: e in edges ==> e.target != r.value.id
    ensures r.None? ==> forall n :: n in nodes ==> exists e :: e in edges && e.target == n.id
  {
    if nodes == [] then None
    else if forall e :: e in edges ==> e.target != nodes[0].id then Some(nodes[0])
    else FirstSource(nodes[1..], edges)
  }

  /** The input node, else the first node no edge enters, else the first node. */
  function StartNode(g: Graph): Option<Node> {
    var input := FirstOfKind(g.nodes, "input");
    if input.Some? then input
    else
      var source := FirstSource(g.nodes, g.edges);
      if source.Some? then source else if g.nodes != [] then Some(g.nodes[0]) else None
  }
}
