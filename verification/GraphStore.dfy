/** Saving a submitted graph as rows, and reading rows back as a submission. */
module GraphStore {
  import opened Outcomes
  import opened Json
  import opened WorkflowGraph
  import opened GraphInput
  import GraphValidator
  import VersionHistory
  import ActionKeys
  import Text

  type VersionId = VersionHistory.VersionId

  datatype NodeRow = NodeRow(
    id: NodeId, versionId: VersionId, key: string, kind: NodeType, name: string, description: Option<string>,
    config: Record, uiPosition: Record)

  datatype RuleRow = RuleRow(
    nodeId: NodeId, kind: AssigneeType, subjectId: Option<string>, fieldKey: Option<string>,
    variableKey: Option<string>, assignmentRole: AssignmentRole, strategy: Strategy, quorum: Option<int>, config: Record)

  datatype TransitionRow = TransitionRow(
    versionId: VersionId, sourceId: NodeId, targetId: NodeId, actionKey: string, caption: string,
    condition: Option<Value>, sortOrder: nat)

  datatype Tables = Tables(nodes: seq<NodeRow>, rules: seq<RuleRow>, transitions: seq<TransitionRow>, nextId: NodeId) {

    /** Row identifiers handed out so far are below the next one. */
    ghost predicate Valid() {
      && (forall n | n in nodes :: n.id < nextId)
      && (forall r | r in rules :: r.nodeId < nextId)
    }
  }

  // ------------------------------------------------------------ normal forms

  /** `value?.trim() || null` */
  function TrimmedOrNone(s: Option<string>): Option<string> {
    if s.Some? && Text.Trim(s.value) != "" then Some(Text.Trim(s.value)) else None
  }

  function OrElse<T>(o: Option<T>, default: T): T {
    if o.Some? then o.value else default
  }

  function NormalRule(r: RuleInput): RuleInput {
    r.(variableKey := TrimmedOrNone(r.variableKey), assignmentRole := Some(OrElse(r.assignmentRole, Executor)),
       strategy := Some(OrElse(r.strategy, AnyOf)), config := Some(OrElse(r.config, map[])))
  }

  function NormalNode(n: NodeInput): NodeInput {
    n.(name := Text.Trim(n.name), description := TrimmedOrNone(n.description),
       config := Some(OrElse(n.config, map[])), uiPosition := Some(OrElse(n.uiPosition, map[])),
       assignees := seq(|n.assignees|, i requires 0 <= i < |n.assignees| => NormalRule(n.assignees[i])))
  }

  function NormalTransition(t: TransitionInput): TransitionInput {
    t.(caption := Text.Trim(t.caption), sortOrder := Some(OrElse(t.sortOrder, 0)))
  }

  // -------------------------------------------------------------------- saving

  function SaveRule(nodeId: NodeId, r: RuleInput): RuleRow {
    RuleRow(nodeId, r.kind, r.subjectId, r.fieldKey, TrimmedOrNone(r.variableKey),
            OrElse(r.assignmentRole, Executor), OrElse(r.strategy, AnyOf), r.quorum, OrElse(r.config, map[]))
  }

  function SaveRules(nodeId: NodeId, rules: seq<RuleInput>): seq<RuleRow> {
    seq(|rules|, i requires 0 <= i < |rules| => SaveRule(nodeId, rules[i]))
  }

  function SaveNode(id: NodeId, versionId: VersionId, n: NodeInput): NodeRow {
    NodeRow(id, versionId, n.key, n.kind, Text.Trim(n.name), TrimmedOrNone(n.description),
            OrElse(n.config, map[]), OrElse(n.uiPosition, map[]))
  }

  function SavedNodes(base: NodeId, versionId: VersionId, ns: seq<NodeInput>): seq<NodeRow> {
    seq(|ns|, i requires 0 <= i < |ns| => SaveNode(base + i, versionId, ns[i]))
  }

  function SavedRules(base: NodeId, ns: seq<NodeInput>): seq<RuleRow> {
    if ns == [] then []
    else SavedRules(base, ns[..|ns| - 1]) + SaveRules(base + |ns| - 1, ns[|ns| - 1].assignees)
  }

  predicate HasKey(ns: seq<NodeInput>, key: string) {
    exists i | 0 <= i < |ns| :: ns[i].key == key
  }

  /** Where a key was saved: the last node that carries it. */
  function IndexOf(ns: seq<NodeInput>, key: string): (i: nat)
    requires HasKey(ns, key)
    ensures i < |ns| && ns[i].key == key
  {
    var last := |ns| - 1;
    if ns[last].key == key then last else IndexOf(ns[..last], key)
  }

  function SaveTransition(base: NodeId, versionId: VersionId, ns: seq<NodeInput>, t: TransitionInput): TransitionRow
    requires HasKey(ns, t.sourceKey) && HasKey(ns, t.targetKey) && t.actionKey.Some?
  {
    TransitionRow(versionId, base + IndexOf(ns, t.sourceKey), base + IndexOf(ns, t.targetKey), t.actionKey.value,
                  Text.Trim(t.caption), t.condition, OrElse(t.sortOrder, 0))
  }

  /** Every transition joins submitted nodes and has its key. */
  predicate Joined(ns: seq<NodeInput>, ts: seq<TransitionInput>) {
    forall t | t in ts :: HasKey(ns, t.sourceKey) && HasKey(ns, t.targetKey) && t.actionKey.Some?
  }

  function SavedTransitions(base: NodeId, versionId: VersionId, ns: seq<NodeInput>, ts: seq<TransitionInput>): seq<TransitionRow>
    requires Joined(ns, ts)
  {
    seq(|ts|, i requires 0 <= i < |ts| => SaveTransition(base, versionId, ns, ts[i]))
  }

  function Filter<T>(s: seq<T>, keep: T -> bool): seq<T> {
    if s == [] then [] else (if keep(s[0]) then [s[0]] else []) + Filter(s[1..], keep)
  }

  function IsNode(v: VersionId): NodeRow -> bool { (n: NodeRow) => n.versionId == v }

  function OtherNode(v: VersionId): NodeRow -> bool { (n: NodeRow) => n.versionId != v }

  function IsRule(id: NodeId): RuleRow -> bool { (r: RuleRow) => r.nodeId == id }

  function OtherRule(gone: set<NodeId>): RuleRow -> bool { (r: RuleRow) => r.nodeId !in gone }

  function IsTransition(v: VersionId): TransitionRow -> bool { (t: TransitionRow) => t.versionId == v }

  function OtherTransition(v: VersionId): TransitionRow -> bool { (t: TransitionRow) => t.versionId != v }

  function NodeIds(nodes: seq<NodeRow>, v: VersionId): set<NodeId> {
    set n | n in nodes && n.versionId == v :: n.id
  }

  /** The tables after a version's graph is replaced: its old rows are gone, with the rules and transitions that
      hang on them, and the new rows are there under fresh identifiers. */
  function Replaced(db: Tables, v: VersionId, ns: seq<NodeInput>, ts: seq<TransitionInput>): Tables
    requires Joined(ns, ts)
  {
    var gone := NodeIds(db.nodes, v);
    Tables(
      Filter(db.nodes, OtherNode(v)) + SavedNodes(db.nextId, v, ns),
      Filter(db.rules, OtherRule(gone)) + SavedRules(db.nextId, ns),
      Filter(db.transitions, OtherTransition(v)) + SavedTransitions(db.nextId, v, ns, ts),
      db.nextId + |ns|)
  }

  ghost predicate MapsKeys(nodeMap: map<string, NodeId>, base: NodeId, ns: seq<NodeInput>) {
    && (forall k :: k in nodeMap <==> HasKey(ns, k))
    && (forall k | k in nodeMap :: nodeMap[k] == base + IndexOf(ns, k))
  }

  lemma NoneYet(base: NodeId, v: VersionId)
    ensures SavedNodes(base, v, []) == [] && SavedRules(base, []) == [] && MapsKeys(map[], base, [])
  {
  }

  lemma OneMore(base: NodeId, v: VersionId, ns: seq<NodeInput>, n: NodeInput, nodeMap: map<string, NodeId>)
    requires MapsKeys(nodeMap, base, ns)
    ensures SavedNodes(base, v, ns + [n]) == SavedNodes(base, v, ns) + [SaveNode(base + |ns|, v, n)]
    ensures SavedRules(base, ns + [n]) == SavedRules(base, ns) + SaveRules(base + |ns|, n.assignees)
    ensures MapsKeys(nodeMap[n.key := base + |ns|], base, ns + [n])
  {
    var more := ns + [n];
    assert more[..|ns|] == ns;
    forall k
      ensures HasKey(more, k) <==> HasKey(ns, k) || k == n.key
    {
      assert HasKey(ns, k) ==> exists i | 0 <= i < |ns| :: more[i].key == k;
      assert more[|ns|].key == n.key;
    }
  }

  lemma PreparedJoined(ns: seq<NodeInput>, ts: seq<TransitionInput>, fold: string -> string, out: seq<TransitionInput>)
    requires ActionKeys.Prepared(ts, fold, out)
    requires forall t | t in ts :: HasKey(ns, t.sourceKey) && HasKey(ns, t.targetKey)
    ensures Joined(ns, out)
  {
  }

  lemma KeysMapped(nodeMap: map<string, NodeId>, base: NodeId, ns: seq<NodeInput>, v: VersionId, t: TransitionInput)
    requires MapsKeys(nodeMap, base, ns) && HasKey(ns, t.sourceKey) && HasKey(ns, t.targetKey) && t.actionKey.Some?
    ensures t.sourceKey in nodeMap && t.targetKey in nodeMap
    ensures SaveTransition(base, v, ns, t)
            == TransitionRow(v, nodeMap[t.sourceKey], nodeMap[t.targetKey], t.actionKey.value, Text.Trim(t.caption), t.condition,
                             OrElse(t.sortOrder, 0))
  {
    hide HasKey, IndexOf;
  }

  class Store {
    var nodes: seq<NodeRow>
    var rules: seq<RuleRow>
    var transitions: seq<TransitionRow>
    var nextId: NodeId

    function Contents(): Tables
      reads this
    {
      Tables(nodes, rules, transitions, nextId)
    }

    /** The version's old rows go, with their rules, and the submitted nodes are inserted one by one. */
    method SaveNodes(v: VersionId, ns: seq<NodeInput>) returns (nodeMap: map<string, NodeId>)
      modifies this`nodes, this`rules, this`nextId
      ensures nextId == old(nextId) + |ns|
      ensures nodes == Filter(old(nodes), OtherNode(v)) + SavedNodes(old(nextId), v, ns)
      ensures var gone := NodeIds(old(nodes), v);
              rules == Filter(old(rules), OtherRule(gone)) + SavedRules(old(nextId), ns)
      ensures MapsKeys(nodeMap, old(nextId), ns)
    {
      var base := nextId;
      hide SavedNodes, SavedRules, SaveRules, SaveNode, MapsKeys;
      var gone := NodeIds(nodes, v);
      nodes := Filter(nodes, OtherNode(v));
      rules := Filter(rules, OtherRule(gone));
      ghost var keptNodes, keptRules := nodes, rules;
      nodeMap := map[];
      NoneYet(base, v);
      for i := 0 to |ns|
        invariant nextId == base + i
        invariant nodes == keptNodes + SavedNodes(base, v, ns[..i])
        invariant rules == keptRules + SavedRules(base, ns[..i])
        invariant MapsKeys(nodeMap, base, ns[..i])
      {
        var input := ns[i];
        var id := nextId;
        nextId := nextId + 1;
        assert ns[..i + 1] == ns[..i] + [input];
        OneMore(base, v, ns[..i], input, nodeMap);
        nodes := nodes + [SaveNode(id, v, input)];
        nodeMap := nodeMap[input.key := id];
        rules := rules + SaveRules(id, input.assignees);
      }
      assert ns[..|ns|] == ns;
    }

    method SaveTransitions(v: VersionId, ghost base: NodeId, ghost ns: seq<NodeInput>, nodeMap: map<string, NodeId>,
                           prepared: seq<TransitionInput>)
      requires Joined(ns, prepared) && MapsKeys(nodeMap, base, ns)
      modifies this`transitions
      ensures transitions == Filter(old(transitions), OtherTransition(v)) + SavedTransitions(base, v, ns, prepared)
    {
      transitions := Filter(transitions, OtherTransition(v));
      hide Filter, HasKey, IndexOf, SaveTransition, MapsKeys;
      ghost var saved, kept := SavedTransitions(base, v, ns, prepared), transitions;
      for i := 0 to |prepared|
        invariant transitions == kept + saved[..i]
      {
        var t := prepared[i];
        assert t in prepared;
        KeysMapped(nodeMap, base, ns, v, t);
        var row := TransitionRow(v, nodeMap[t.sourceKey], nodeMap[t.targetKey], t.actionKey.value, Text.Trim(t.caption),
                                 t.condition, OrElse(t.sortOrder, 0));
        assert row == saved[i] && saved[..i + 1] == saved[..i] + [row];
        transitions := transitions + [row];
      }
      assert saved[..|prepared|] == saved;
    }

    method ReplaceGraph(v: VersionId, ns: seq<NodeInput>, ts: seq<TransitionInput>, fold: string -> string)
      returns (prepared: seq<TransitionInput>)
      requires forall t | t in ts :: HasKey(ns, t.sourceKey) && HasKey(ns, t.targetKey)
      modifies this
      ensures ActionKeys.Prepared(ts, fold, prepared) && Joined(ns, prepared)
      ensures Contents() == Replaced(old(Contents()), v, ns, prepared)
    {
      ghost var base := nextId;
      var nodeMap := SaveNodes(v, ns);
      prepared := ActionKeys.PrepareTransitions(ts, fold);
      PreparedJoined(ns, ts, fold, prepared);
      SaveTransitions(v, base, ns, nodeMap, prepared);
    }

    /** The version's rows, each node with its rules. */
    method LoadGraph(v: VersionId) returns (view: View)
      ensures Loaded(Contents(), v, view)
    {
      var found := NodesOf(Contents(), v);
      var views: seq<NodeView> := [];
      for i := 0 to |found|
        invariant |views| == i
        invariant forall k | 0 <= k < i :: views[k] == NodeView(found[k], RulesOf(Contents(), found[k].id))
      {
        views := views + [NodeView(found[i], RulesOf(Contents(), found[i].id))];
      }
      view := View(views, TransitionsOf(Contents(), v));
      assert view == InTableOrder(Contents(), v);
      TableOrderLoads(Contents(), v);
    }
  }

  function Positions(n: nat): seq<nat> {
    seq(n, i requires 0 <= i < n => i)
  }

  // ------------------------------------------------------------------- loading

  datatype NodeView = NodeView(row: NodeRow, rules: seq<RuleRow>)

  datatype View = View(nodes: seq<NodeView>, transitions: seq<TransitionRow>)

  function NodesOf(db: Tables, v: VersionId): seq<NodeRow> {
    Filter(db.nodes, IsNode(v))
  }

  function RulesOf(db: Tables, id: NodeId): seq<RuleRow> {
    Filter(db.rules, IsRule(id))
  }

  function TransitionsOf(db: Tables, v: VersionId): seq<TransitionRow> {
    Filter(db.transitions, IsTransition(v))
  }

  ghost predicate SameRules(a: seq<RuleRow>, b: seq<RuleRow>) {
    exists p, q :: Rearranges(a, b, p, q)
  }

  /** A graph read back: the version's rows, in whatever order the queries return them. */
  ghost predicate Loads(db: Tables, v: VersionId, view: View, p: seq<nat>, q: seq<nat>, r: seq<nat>, s: seq<nat>) {
    && Permutes(p, q, |view.nodes|) && |view.nodes| == |NodesOf(db, v)|
    && (forall i | 0 <= i < |view.nodes| ::
          && view.nodes[i].row == NodesOf(db, v)[p[i]]
          && SameRules(view.nodes[i].rules, RulesOf(db, view.nodes[i].row.id)))
    && Rearranges(view.transitions, TransitionsOf(db, v), r, s)
  }

  ghost predicate Loaded(db: Tables, v: VersionId, view: View) {
    exists p, q, r, s :: Loads(db, v, view, p, q, r, s)
  }

  /** One order the queries may return the rows in: that of the tables. */
  function InTableOrder(db: Tables, v: VersionId): View {
    var rows := NodesOf(db, v);
    View(seq(|rows|, i requires 0 <= i < |rows| => NodeView(rows[i], RulesOf(db, rows[i].id))), TransitionsOf(db, v))
  }

  lemma TableOrderLoads(db: Tables, v: VersionId)
    ensures Loaded(db, v, InTableOrder(db, v))
  {
    hide NodesOf, RulesOf, TransitionsOf;
    var view := InTableOrder(db, v);
    var p, r := Positions(|view.nodes|), Positions(|view.transitions|);
    forall i | 0 <= i < |view.nodes|
      ensures SameRules(view.nodes[i].rules, RulesOf(db, view.nodes[i].row.id))
    {
      var q := Positions(|view.nodes[i].rules|);
      assert Rearranges(view.nodes[i].rules, view.nodes[i].rules, q, q);
    }
    assert Loads(db, v, view, p, p, r, r);
  }

  function LoadRule(r: RuleRow): RuleInput {
    RuleInput(r.kind, r.subjectId, r.fieldKey, r.variableKey, Some(r.assignmentRole), Some(r.strategy), r.quorum,
              Some(r.config))
  }

  function LoadNode(n: NodeView): NodeInput {
    NodeInput(n.row.key, n.row.kind, n.row.name, n.row.description, Some(n.row.config), Some(n.row.uiPosition),
              seq(|n.rules|, i requires 0 <= i < |n.rules| => LoadRule(n.rules[i])))
  }

  predicate InView(nodes: seq<NodeView>, id: NodeId) {
    exists i | 0 <= i < |nodes| :: nodes[i].row.id == id
  }

  function KeyById(nodes: seq<NodeView>, id: NodeId): (key: string)
    requires InView(nodes, id)
    ensures exists i | 0 <= i < |nodes| :: nodes[i].row.id == id && nodes[i].row.key == key
  {
    var last := |nodes| - 1;
    if nodes[last].row.id == id then nodes[last].row.key else KeyById(nodes[..last], id)
  }

  predicate Connected(view: View) {
    forall t | t in view.transitions :: InView(view.nodes, t.sourceId) && InView(view.nodes, t.targetId)
  }

  function LoadTransition(nodes: seq<NodeView>, t: TransitionRow): TransitionInput
    requires InView(nodes, t.sourceId) && InView(nodes, t.targetId)
  {
    TransitionInput(KeyById(nodes, t.sourceId), KeyById(nodes, t.targetId), Some(t.actionKey), t.caption, t.condition,
                    Some(t.sortOrder))
  }

  function NodesToInput(view: View): seq<NodeInput> {
    seq(|view.nodes|, i requires 0 <= i < |view.nodes| => LoadNode(view.nodes[i]))
  }

  function TransitionsToInput(view: View): seq<TransitionInput>
    requires Connected(view)
  {
    seq(|view.transitions|, i requires 0 <= i < |view.transitions| => LoadTransition(view.nodes, view.transitions[i]))
  }
}
