/** A version's graph as its life cycle sees it, and the graph a new definition starts with. */
module WorkflowDrawings {
  import opened Outcomes
  import opened Json
  import opened WorkflowGraph
  import opened GraphInput
  import opened VersionHistory
  import GraphValidator
  import GraphRoundTrip
  import GraphStore
  import ActionKeys

  /** A version's graph as it reads back, up to row identifiers and order. */
  datatype Drawing = Drawing(nodes: seq<NodeInput>, transitions: seq<TransitionInput>)

  predicate Addressable(d: Drawing) {
    && (forall n | n in d.nodes :: ':' !in n.key)
    && forall t | t in d.transitions :: t.actionKey.Some?
  }

  ghost predicate Acceptable(d: Drawing) {
    Addressable(d) && ActionKeys.KeyedAll(d.transitions) && GraphValidator.WellFormed(d.nodes, d.transitions)
  }

  function Stored(d: Drawing): Drawing {
    Drawing(GraphRoundTrip.NormalNodes(d.nodes), GraphRoundTrip.NormalTransitions(d.transitions))
  }

  ghost function WorkflowRules(): Rules<Drawing> {
    Rules((d: Drawing) => Acceptable(d), (d: Drawing) => Acceptable(d), (d: Drawing) => Stored(d), Drawing([], []), AfterCurrent)
  }

  lemma StoredAddressable(d: Drawing)
    requires Addressable(d)
    ensures Addressable(Stored(d))
  {
  }

  lemma StoredKeyed(ts: seq<TransitionInput>)
    requires ActionKeys.KeyedAll(ts)
    ensures ActionKeys.KeyedAll(GraphRoundTrip.NormalTransitions(ts))
  {
    hide ActionKeys.IsActionKey;
  }

  lemma StoredAcceptable(d: Drawing)
    requires Acceptable(d)
    ensures Acceptable(Stored(d))
  {
    hide GraphValidator.WellFormed, Addressable, ActionKeys.KeyedAll;
    StoredAddressable(d);
    StoredKeyed(d.transitions);
    GraphRoundTrip.NormalWellFormed(d.nodes, d.transitions);
  }

  lemma StoredIdempotent(d: Drawing)
    ensures Stored(Stored(d)) == Stored(d)
  {
    forall i | 0 <= i < |d.nodes|
      ensures Stored(Stored(d)).nodes[i] == Stored(d).nodes[i]
    {
      GraphRoundTrip.NormalIdempotent(d.nodes[i]);
    }
    forall i | 0 <= i < |d.transitions|
      ensures Stored(Stored(d)).transitions[i] == Stored(d).transitions[i]
    {
      GraphRoundTrip.NormalTransitionIdempotent(d.transitions[i]);
    }
  }

  lemma WorkflowRulesLawful()
    ensures Lawful(WorkflowRules())
  {
    hide Acceptable, Stored;
    forall d: Drawing
      ensures Acceptable(d) ==> Acceptable(Stored(d))
      ensures Stored(Stored(d)) == Stored(d)
    {
      StoredIdempotent(d);
      if Acceptable(d) {
        StoredAcceptable(d);
      }
    }
  }

  // --------------------------------------------------------- the default graph

  function Step(key: string, kind: NodeType, name: string, config: Record, x: real, fieldKeys: seq<string>): NodeInput {
    NodeInput(key, kind, name, None, Some(config), Some(map["x" := Num(x), "y" := Num(180.0)]),
              seq(|fieldKeys|, i requires 0 <= i < |fieldKeys| =>
                RuleInput(ByRequestField, None, Some(fieldKeys[i]), None, None, Some(AnyOf), None, None)))
  }

  function Move(source: string, target: string, actionKey: string, caption: string, sortOrder: nat): TransitionInput {
    TransitionInput(source, target, Some(actionKey), caption, None, Some(sortOrder))
  }

  const DEFAULT_NODES := [
    Step("start", NodeType.Start, "Khởi tạo", map[], 80.0, []),
    Step("execute", HumanTask, "Tiếp nhận & thi công", map["slaMinutes" := Num(2880.0)], 340.0, ["assigneeId"]),
    Step("technical_review", HumanTask, "Kiểm tra kỹ thuật", map["slaMinutes" := Num(1440.0)], 620.0, ["technicalReviewerId"]),
    Step("completed", End, "Hoàn tất", map[], 900.0, [])]

  const DEFAULT_TRANSITIONS := [
    Move("start", "execute", "assign", "Giao việc", 0),
    Move("execute", "technical_review", "submit_review", "Gửi kiểm tra kỹ thuật", 0),
    Move("technical_review", "execute", "request_rework", "Yêu cầu thực hiện lại", 0),
    Move("technical_review", "completed", "approve", "Xác nhận hoàn thành", 1)]

  const DEFAULT := Drawing(DEFAULT_NODES, DEFAULT_TRANSITIONS)

  /** Whom the steps of the default graph ask for, and how long they may take. */
  lemma DefaultSteps()
    ensures DEFAULT_NODES[1].assignees == [RuleInput(ByRequestField, None, Some("assigneeId"), None, None, Some(AnyOf), None, None)]
    ensures DEFAULT_NODES[2].assignees == [RuleInput(ByRequestField, None, Some("technicalReviewerId"), None, None, Some(AnyOf), None, None)]
    ensures DEFAULT_NODES[0].assignees == DEFAULT_NODES[3].assignees == []
    ensures DEFAULT_NODES[1].config == Some(map["slaMinutes" := Num(2880.0)])
    ensures DEFAULT_NODES[2].config == Some(map["slaMinutes" := Num(1440.0)])
  {
  }

  lemma DefaultReaches()
    ensures forall key | key in {"start", "execute", "technical_review", "completed"} ::
              GraphValidator.Reaches(DEFAULT_TRANSITIONS, "start", key)
  {
    hide GraphValidator.Reaches;
    var ts := DEFAULT_TRANSITIONS;
    GraphValidator.ReachesSelf(ts, "start");
    assert ts[0] in ts && ts[1] in ts && ts[3] in ts;
    GraphValidator.ReachesNext(ts, "start", ts[0]);
    GraphValidator.ReachesNext(ts, "start", ts[1]);
    GraphValidator.ReachesNext(ts, "start", ts[3]);
  }

  lemma StepFits(key: string, kind: NodeType, name: string, config: Record, x: real, fieldKeys: seq<string>)
    requires config.Keys <= {"slaMinutes"}
    requires forall i | 0 <= i < |fieldKeys| :: fieldKeys[i] != ""
    requires kind.HumanTask? ==> fieldKeys != []
    ensures GraphValidator.NodeFits(Step(key, kind, name, config, x, fieldKeys))
  {
  }

  lemma DefaultDegrees(i: nat)
    requires i < 4
    ensures GraphValidator.DegreesFit(DEFAULT_NODES[i], DEFAULT_TRANSITIONS)
  {
    var ts := DEFAULT_TRANSITIONS;
    assert ts[0].sourceKey == "start" && ts[1].sourceKey == "execute" && ts[2].sourceKey == "technical_review";
    assert GraphValidator.EndKey(ts[0], GraphValidator.Source) == "start";
    assert GraphValidator.EndKey(ts[1], GraphValidator.Source) == "execute";
    assert GraphValidator.EndKey(ts[2], GraphValidator.Source) == "technical_review";
  }

  lemma DefaultKeys()
    ensures ActionKeys.KeyedAll(DEFAULT_TRANSITIONS) && ActionKeys.DistinctKeys(DEFAULT_TRANSITIONS)
  {
    hide ActionKeys.DistinctKeys;
    assert ActionKeys.KeyedAll(DEFAULT_TRANSITIONS);
    hide ActionKeys.KeyedAll;
    DefaultDistinct();
  }

  lemma DefaultDistinct()
    ensures ActionKeys.DistinctKeys(DEFAULT_TRANSITIONS)
  {
  }

  lemma DefaultTransitionsFit()
    ensures forall t | t in DEFAULT_TRANSITIONS ::
              GraphValidator.Known(DEFAULT_NODES, t.sourceKey) && GraphValidator.Known(DEFAULT_NODES, t.targetKey)
              && GraphValidator.TransitionFits(t)
  {
  }

  lemma DefaultNodesFit()
    ensures forall n | n in DEFAULT_NODES :: GraphValidator.NodeFits(n)
  {
    hide GraphValidator.NodeFits, Step;
    StepFits("start", NodeType.Start, "Khởi tạo", map[], 80.0, []);
    StepFits("execute", HumanTask, "Tiếp nhận & thi công", map["slaMinutes" := Num(2880.0)], 340.0, ["assigneeId"]);
    StepFits("technical_review", HumanTask, "Kiểm tra kỹ thuật", map["slaMinutes" := Num(1440.0)], 620.0, ["technicalReviewerId"]);
    StepFits("completed", End, "Hoàn tất", map[], 900.0, []);
  }

  lemma DefaultNodesDistinct()
    ensures GraphValidator.UniqueKeys(DEFAULT_NODES) && GraphValidator.StartsAt(DEFAULT_NODES, 0)
    ensures DEFAULT_NODES[0].key == "start" && DEFAULT_NODES[3] in DEFAULT_NODES && DEFAULT_NODES[3].kind.End?
    ensures forall n | n in DEFAULT_NODES :: ':' !in n.key
  {
  }

  lemma DefaultNodesConnected()
    ensures forall n | n in DEFAULT_NODES ::
              GraphValidator.DegreesFit(n, DEFAULT_TRANSITIONS) && GraphValidator.Reaches(DEFAULT_TRANSITIONS, "start", n.key)
  {
    hide GraphValidator.DegreesFit, GraphValidator.Reaches;
    DefaultReaches();
    DefaultDegrees(0);
    DefaultDegrees(1);
    DefaultDegrees(2);
    DefaultDegrees(3);
  }

  /** A new definition starts with a graph that can be published as it is. */
  lemma DefaultAcceptable()
    ensures Acceptable(DEFAULT)
  {
    hide GraphValidator.NodeFits, GraphValidator.DegreesFit, GraphValidator.Reaches, GraphValidator.TransitionFits, Step, Move;
    hide ActionKeys.DistinctKeys, ActionKeys.IsActionKey, GraphValidator.Known, GraphValidator.UniqueKeys, GraphValidator.StartsAt;
    DefaultNodesFit();
    DefaultNodesDistinct();
    DefaultNodesConnected();
    DefaultKeys();
    DefaultTransitionsFit();
  }
}
