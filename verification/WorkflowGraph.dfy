/** The stored workflow graph of one version, and what a node does in a given context. */
module WorkflowGraph {
  import opened Outcomes
  import opened Json
  import Conditions

  /** Row identifiers are opaque. */
  type NodeId = int

  datatype NodeType = Start | HumanTask | ServiceTask | Condition | ParallelSplit | ParallelJoin | End

  datatype Node = Node(kind: NodeType, name: string, config: Record)

  /** `condition` is a stored JSON object, or nothing. */
  datatype Edge = Edge(source: NodeId, target: NodeId, actionKey: string, caption: string, condition: Option<Value>)

  /** `edges` is in the order in which the store returns transitions, that is by `sortOrder`. */
  datatype Graph = Graph(nodes: map<NodeId, Node>, edges: seq<Edge>) {

    /** What the foreign keys of the store guarantee. */
    ghost predicate Closed() {
      forall e | e in edges :: e.source in nodes && e.target in nodes
    }

    /** What the unique constraint on (version, source, action) guarantees. */
    ghost predicate Deterministic() {
      forall i, j | 0 <= i < j < |edges| ::
        edges[i].source == edges[j].source ==> edges[i].actionKey != edges[j].actionKey
    }

    function Outgoing(n: NodeId): seq<Edge> {
      From(edges, n)
    }

    function Incoming(n: NodeId): nat {
      Into(edges, n)
    }

    /** The number of waiting tokens at which a join fires. */
    function Threshold(n: NodeId): real
      requires n in nodes
    {
      var config := nodes[n].config;
      var strategy := if Lookup(config, "joinStrategy").Str? then Lookup(config, "joinStrategy").s else "ALL";
      var incoming := Incoming(n) as real;
      var quorum := if Lookup(config, "quorum").Num? then Lookup(config, "quorum").n else incoming;
      if strategy == "ANY" then 1.0
      else if strategy == "QUORUM" then (if quorum > 1.0 then quorum else 1.0)
      else incoming
    }

    /** The exit an automatic node or a firing join takes. */
    function Selected(n: NodeId, context: Value): Option<Edge> {
      var enabled := Enabled(Outgoing(n), context);
      if enabled == [] then None else Some(enabled[0])
    }

    /** The branches a split opens. */
    function Branches(n: NodeId, context: Value): seq<Edge> {
      Enabled(Outgoing(n), context)
    }
  }

  function From(edges: seq<Edge>, n: NodeId): (r: seq<Edge>)
    ensures forall e :: e in r <==> e in edges && e.source == n
  {
    if edges == [] then []
    else (if edges[0].source == n then [edges[0]] else []) + From(edges[1..], n)
  }

  function Into(edges: seq<Edge>, n: NodeId): nat {
    if edges == [] then 0 else (if edges[0].target == n then 1 else 0) + Into(edges[1..], n)
  }

  predicate Open(e: Edge, context: Value) {
    e.condition.None? || Conditions.Evaluate(e.condition.value, context)
  }

  function Enabled(edges: seq<Edge>, context: Value): (r: seq<Edge>)
    ensures forall e :: e in r <==> e in edges && Open(e, context)
  {
    if edges == [] then []
    else (if Open(edges[0], context) then [edges[0]] else []) + Enabled(edges[1..], context)
  }
}
