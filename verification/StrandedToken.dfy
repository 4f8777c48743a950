/** A token on a human step without a task of its own stays there for ever; and a graph the validator accepts that strands
    one, because two branches of a split meet on one human step. */
module StrandedToken {
  import opened Outcomes
  import opened Json
  import opened WorkflowGraph
  import opened TokenEngine
  import opened InstanceActions
  import opened EngineCoverage
  import opened EngineLandings
  import InstanceSafety
  import opened EngineSafety
  import GraphStore
  import GraphRoundTrip
  import GraphValidator
  import ActionKeys
  import opened WorkflowDrawings
  import Text

  // ------------------------------------------------------------- in any graph

  /** Token `u` waits on a human step, and no open task names it. */
  ghost predicate Stranded(g: Graph, s: State, u: nat) {
    u in ActiveTokens(s.tokens) && OnHuman(g, s.tokens[u].node) && !Owned(s, u)
  }

  lemma VisitStrands(g: Graph, env: Env, s: State, t: nat, u: nat)
    requires Stranded(g, s, u) && t in ActiveTokens(s.tokens) && t != u && Visit(g, env, s, t).Ok?
    ensures var hop := Visit(g, env, s, t).value;
            && Stranded(g, hop.state, u)
            && (hop.Go? ==> hop.next != u && hop.next in ActiveTokens(hop.state.tokens))
  {
    hide From, Enabled, Graph.Threshold, Graph.Selected, Graph.Branches, Roles, AssigneesAt, SomeBlocked, FirstActive, OpenTaskAt;
    var s' := Visit(g, env, s, t).value.state;
    assert u !in Waiting(s.tokens, s.tokens[t].node) || OnHuman(g, s.tokens[t].node);
    forall k | 0 <= k < |s'.tasks| && s'.tasks[k].IsOpen()
      ensures s'.tasks[k].tokenId != Some(u)
    {
      assert k < |s.tasks| ==> s'.tasks[k] == s.tasks[k];
    }
  }

  lemma {:induction false} ActivateStrands(g: Graph, env: Env, s: State, t: nat, depth: nat, u: nat)
    requires Stranded(g, s, u) && t in ActiveTokens(s.tokens) && t != u && Activate(g, env, s, t, depth).Ok?
    ensures Stranded(g, Activate(g, env, s, t, depth).value, u)
    decreases Fuel(depth), 0
  {
    hide Visit, Stranded;
    VisitStrands(g, env, s, t, u);
    var hop := Visit(g, env, s, t).value;
    if hop.Go? {
      ActivateStrands(g, env, hop.state, hop.next, depth + hop.cost, u);
    } else if hop.Fork? {
      FanOutStrands(g, env, hop.state, hop.edges, depth + 1, u);
    }
  }

  lemma {:induction false} FanOutStrands(g: Graph, env: Env, s: State, edges: seq<Edge>, depth: nat, u: nat)
    requires Stranded(g, s, u) && FanOut(g, env, s, edges, depth).Ok?
    ensures Stranded(g, FanOut(g, env, s, edges, depth).value, u)
    decreases Fuel(depth), |edges| + 1
  {
    if edges != [] {
      var spawned := Spawn(s, edges[0]);
      AfterAppend(s.tokens, edges[0].target, Some(edges[0].actionKey));
      assert !Owned(spawned, u);
      hide Owned;
      ActivateStrands(g, env, spawned, |s.tokens|, depth, u);
      FanOutStrands(g, env, Activate(g, env, spawned, |s.tokens|, depth).value, edges[1..], depth, u);
    }
  }

  lemma EntryStrands(g: Graph, env: Env, s: State, user: User, req: Request, a: Admission, u: nat)
    requires TasksOwnTokens(g, s) && Stranded(g, s, u)
    requires a.task < |s.tasks| && s.tasks[a.task].IsOpen() && Entry(env, s, user, req, a).Ok?
    ensures var (entered, t) := Entry(env, s, user, req, a).value;
            Stranded(g, entered, u) && t in ActiveTokens(entered.tokens) && t != u
  {
    var (entered, t) := Entry(env, s, user, req, a).value;
    assert s.tasks[a.task].tokenId.value in Waiting(s.tokens, s.tasks[a.task].node);
    forall k | 0 <= k < |entered.tasks| && entered.tasks[k].IsOpen()
      ensures entered.tasks[k].tokenId != Some(u)
    {
      assert entered.tasks[k] == s.tasks[k];
    }
  }

  lemma AttemptStrands(g: Graph, context: Context, s: State, c: Command, u: nat)
    requires g.Closed() && c.env.context == context && Settled(g, context, s) && Stranded(g, s, u)
    ensures Stranded(g, Attempt(g, s, c), u)
  {
    hide Activate, Stranded, Settled;
    var admitted := Admit(g, context, s, c.user, c.request);
    if !Replayed(c.env, s.log, c.request) && admitted.Ok? {
      var entry := Entry(c.env, s, c.user, c.request, admitted.value);
      if entry.Ok? {
        SettledOwns(g, context, s);
        EntryStrands(g, c.env, s, c.user, c.request, admitted.value, u);
        var (entered, t) := entry.value;
        hide Entry, Admit;
        if Activate(g, c.env, entered, t, 1).Ok? {
          ActivateStrands(g, c.env, entered, t, 1, u);
          RefreshStrands(g, Activate(g, c.env, entered, t, 1).value, c.env.now, u);
        }
      }
    }
  }

  lemma RefreshStrands(g: Graph, s: State, now: int, u: nat)
    requires Stranded(g, s, u)
    ensures Stranded(g, Refresh(s, now), u)
  {
    assert Refresh(s, now).tokens == s.tokens && Refresh(s, now).tasks == s.tasks;
  }

  /** Once stranded, a token stays where it is through any run, and the instance never completes. */
  lemma {:induction false} StrandedForGood(g: Graph, context: Context, s: State, u: nat, commands: seq<Command>)
    requires g.Closed() && Settled(g, context, s) && InstanceSafety.SameContext(context, commands) && Stranded(g, s, u)
    ensures Stranded(g, RunAll(g, s, commands), u) && !RunAll(g, s, commands).row.status.InstanceCompleted?
    decreases |commands|
  {
    hide Attempt;
    if commands != [] {
      var c := commands[0];
      assert c in commands;
      AttemptStrands(g, context, s, c, u);
      AttemptIsSettled(g, context, s, c);
      hide Settled, Stranded;
      StrandedForGood(g, context, Attempt(g, s, c), u, commands[1..]);
    }
  }

  lemma AttemptIsSettled(g: Graph, context: Context, s: State, c: Command)
    requires g.Closed() && c.env.context == context && Settled(g, context, s)
    ensures Settled(g, context, Attempt(g, s, c))
  {
    hide Perform, Settled;
    InstanceSafety.PerformSettled(g, c.env, s, c.user, c.request);
  }

  // --------------------------------------------------------------- an example

  /** Without an open task nothing an instance is asked to do changes it any more. */
  lemma {:induction false} NoOpenTaskIsFinal(g: Graph, s: State, commands: seq<Command>)
    requires forall k | 0 <= k < |s.tasks| :: !s.tasks[k].IsOpen()
    ensures RunAll(g, s, commands) == s
    decreases |commands|
  {
    if commands != [] {
      NoOpenTaskIsFinal(g, s, commands[1..]);
    }
  }

  const TO_SPLIT := Edge(0, 1, "go", "Go", None)
  const LEFT := Edge(1, 2, "left", "Left", None)
  const RIGHT := Edge(1, 2, "right", "Right", None)
  const DONE := Edge(2, 3, "done", "Done", None)

  /** Start, a split whose two branches lead to the same human step, and the end. */
  const TWIN := Graph(
    map[0 := Node(NodeType.Start, "Start", map[]), 1 := Node(ParallelSplit, "Split", map[]),
        2 := Node(HumanTask, "Work", map[]), 3 := Node(End, "End", map[])],
    [TO_SPLIT, LEFT, RIGHT, DONE])

  lemma FromCons(e: Edge, rest: seq<Edge>, n: NodeId)
    ensures From([e] + rest, n) == (if e.source == n then [e] else []) + From(rest, n)
  {
  }

  lemma TwinOutgoing(n: NodeId)
    ensures TWIN.Outgoing(n) == match n case 0 => [TO_SPLIT] case 1 => [LEFT, RIGHT] case 2 => [DONE] case _ => []
  {
    FromCons(DONE, [], n);
    FromCons(RIGHT, [DONE], n);
    FromCons(LEFT, [RIGHT, DONE], n);
    FromCons(TO_SPLIT, [LEFT, RIGHT, DONE], n);
    assert [DONE] + [] == [DONE];
    assert [RIGHT] + [DONE] == [RIGHT, DONE];
    assert [LEFT] + [RIGHT, DONE] == [LEFT, RIGHT, DONE];
    assert TWIN.edges == [TO_SPLIT] + [LEFT, RIGHT, DONE];
  }

  lemma {:induction false} AllEnabled(edges: seq<Edge>, context: Value)
    requires forall e | e in edges :: e.condition.None?
    ensures Enabled(edges, context) == edges
  {
    if edges != [] {
      AllEnabled(edges[1..], context);
    }
  }

  lemma TwinMoves(context: Value)
    ensures TWIN.Selected(0, context) == Some(TO_SPLIT)
    ensures TWIN.Branches(1, context) == [LEFT, RIGHT]
  {
    hide Enabled, From;
    TwinOutgoing(0);
    TwinOutgoing(1);
    AllEnabled([TO_SPLIT], context);
    AllEnabled([LEFT, RIGHT], context);
  }

  lemma TwinDone()
    ensures FindEdge(TWIN.edges, 2, "done") == Some(DONE)
  {
  }

  const WORKER := User("worker", false, {}, {})

  function TwinEnv(context: Context, now: int): Env {
    Env(context, map[2 := Assignees({"worker"}, {})], now, {})
  }

  /** A branch that opens on a human step stops there. */
  lemma BranchToHuman(g: Graph, env: Env, s: State, e: Edge, depth: nat)
    requires OnHuman(g, e.target) && depth <= MAX_DEPTH
    ensures Activate(g, env, Spawn(s, e), |s.tokens|, depth)
            == Ok(OpenTask(g.nodes[e.target], env, Arrive(Spawn(s, e), e.target), |s.tokens|))
  {
  }

  lemma TwinReachesSplit(context: Context, now: int) returns (s: State)
    ensures StartInstance(TWIN, TwinEnv(context, now), 0, None)
            == FanOut(TWIN, TwinEnv(context, now), s, [LEFT, RIGHT], 3)
    ensures |s.tokens| == 2 && ActiveTokens(s.tokens) == {} && s.tasks == []
  {
    hide Activate, FanOut;
    var env := TwinEnv(context, now);
    TwinMoves(context);
    var s1 := StartPasses(TWIN, env, Fresh(0, None), TO_SPLIT);
    s := SplitDivides(TWIN, env, s1);
  }

  lemma StartPasses(g: Graph, env: Env, s: State, e: Edge) returns (s': State)
    requires s.tokens == [NewToken(e.source, None)] && s.tasks == []
    requires e.source in g.nodes && g.nodes[e.source].kind.Start? && g.Selected(e.source, env.context) == Some(e)
    ensures s'.tasks == [] && |s'.tokens| == 2 && s'.tokens[0].status.Consumed? && s'.tokens[1] == NewToken(e.target, None)
    ensures Activate(g, env, s, 0, 0) == Activate(g, env, s', 1, 2)
  {
    hide Graph.Selected, Activate, FanOut;
    ActivateUnfolds(g, env, s, 0, 0);
    s' := Pass(g, env, Arrive(s, e.source), 0).state;
    assert Visit(g, env, s, 0) == Ok(Go(s', 1, 2));
    hide Visit;
  }

  lemma SplitDivides(g: Graph, env: Env, s: State) returns (s': State)
    requires s.tasks == [] && |s.tokens| == 2 && s.tokens[0].status.Consumed? && s.tokens[1].status.Active?
    requires s.tokens[1].node in g.nodes && g.nodes[s.tokens[1].node].kind.ParallelSplit?
    ensures Activate(g, env, s, 1, 2) == FanOut(g, env, s', g.Branches(s.tokens[1].node, env.context), 3)
    ensures |s'.tokens| == 2 && ActiveTokens(s'.tokens) == {} && s'.tasks == []
  {
    hide Graph.Branches, Activate, FanOut;
    ActivateUnfolds(g, env, s, 1, 2);
    s' := Divide(g, env, Arrive(s, s.tokens[1].node), 1).state;
    assert Visit(g, env, s, 1) == Ok(Fork(s', g.Branches(s.tokens[1].node, env.context)));
    hide Visit;
  }

  /** Both branches wait on the human step, and only the first has a task. */
  ghost predicate BothWait(s: State) {
    && s.row.status.Running? && |s.tokens| == 4 && ActiveTokens(s.tokens) == {2, 3}
    && s.tokens[2].node == s.tokens[3].node == 2
    && |s.tasks| == 1 && s.tasks[0].IsOpen() && s.tasks[0].tokenId == Some(2)
    && s.tasks[0].node == 2 && s.tasks[0].assignments == map["worker" := Assignee]
  }

  lemma TwinStarts(context: Context, now: int)
    ensures var r := StartInstance(TWIN, TwinEnv(context, now), 0, None);
            r.Ok? && BothWait(r.value)
  {
    hide Activate;
    var env := TwinEnv(context, now);
    var s2 := TwinReachesSplit(context, now);
    BranchToHuman(TWIN, env, s2, LEFT, 3);
    var s3 := OpenTask(TWIN.nodes[2], env, Arrive(Spawn(s2, LEFT), 2), 2);
    BranchToHuman(TWIN, env, s3, RIGHT, 3);
    var s4 := OpenTask(TWIN.nodes[2], env, Arrive(Spawn(s3, RIGHT), 2), 3);
    assert s3.tasks[0].node == 2 && s3.tasks[0].IsOpen();
    assert s4.tasks == s3.tasks;
    assert [LEFT, RIGHT][1..] == [RIGHT] && [RIGHT][1..] == [];
    assert FanOut(TWIN, env, s4, [], 3) == Ok(s4);
    assert FanOut(TWIN, env, s3, [RIGHT], 3) == Ok(s4);
  }

  /** A token that moves to the end finishes there. */
  lemma MoveToEnd(g: Graph, env: Env, s: State, t: nat, depth: nat)
    requires t < |s.tokens| && s.tokens[t].node in g.nodes && g.nodes[s.tokens[t].node].kind.End? && depth <= MAX_DEPTH
    ensures Activate(g, env, s, t, depth) == Ok(Finish(env, Arrive(s, s.tokens[t].node), t))
  {
  }

  const COMPLETE := Request(None, "done", map[], None)

  lemma TwinEntry(env: Env, s: State) returns (entered: State)
    requires BothWait(s)
    ensures Admit(TWIN, env.context, s, WORKER, COMPLETE) == Ok(Admission(0, DONE))
    ensures Entry(env, s, WORKER, COMPLETE, Admission(0, DONE)) == Ok((entered, 4))
    ensures |entered.tokens| == 5 && ActiveTokens(entered.tokens) == {3, 4} && entered.tokens[4].node == 3
    ensures entered.tokens[3].node == 2 && |entered.tasks| == 1 && !entered.tasks[0].IsOpen()
  {
    TwinDone();
    assert CandidateTask(s.tasks, COMPLETE, 0);
    assert FirstAssigned(s.tasks, WORKER, COMPLETE, 0) == Some(0);
    entered := Entry(env, s, WORKER, COMPLETE, Admission(0, DONE)).value.0;
    AfterConsume(s.tokens, {2}, env.now);
    AfterAppend(Consume(s.tokens, {2}, env.now), 3, s.tokens[2].branchKey);
  }

  lemma TwinCompletes(env: Env, s: State) returns (last: State)
    requires BothWait(s)
    ensures Perform(TWIN, env, s, WORKER, COMPLETE) == Ok(last)
    ensures ActiveTokens(last.tokens) == {3} && last.tokens[3].node == 2 && last.row.status.Running?
    ensures |last.tasks| == 1 && !last.tasks[0].IsOpen()
  {
    hide Activate, Admit, Entry;
    var entered := TwinEntry(env, s);
    MoveToEnd(TWIN, env, entered, 4, 1);
    var ended := Finish(env, Arrive(entered, 3), 4);
    AfterConsume(entered.tokens, {4}, env.now);
    assert ActiveTokens(ended.tokens) == {3};
    last := Refresh(ended, env.now);
  }

  /** Completing the only task strands the second token: the instance stays running, with no task, for ever. */
  lemma TwinStrands(context: Context, now: int, commands: seq<Command>)
    ensures var started := StartInstance(TWIN, TwinEnv(context, now), 0, None);
            && started.Ok?
            && var r := Perform(TWIN, TwinEnv(context, now), started.value, WORKER, COMPLETE);
            && r.Ok? && RunAll(TWIN, r.value, commands) == r.value
            && r.value.row.status.Running? && !Covered(TWIN, r.value) && ActiveTokens(r.value.tokens) == {3}
  {
    hide Activate, FanOut, StartInstance, Perform, RunAll, Refresh;
    var env := TwinEnv(context, now);
    TwinStarts(context, now);
    var last := TwinCompletes(env, StartInstance(TWIN, env, 0, None).value);
    NoOpenTaskIsFinal(TWIN, last, commands);
    assert !Owned(last, 3);
  }

  // --------------------------------------------------- it passes the validator

  const TWIN_NODES := [
    Step("start", NodeType.Start, "Start", map[], 0.0, []), Step("split", ParallelSplit, "Split", map[], 0.0, []),
    Step("work", HumanTask, "Work", map[], 0.0, ["assigneeId"]), Step("end", End, "End", map[], 0.0, [])]

  const TWIN_TRANSITIONS := [
    Move("start", "split", "go", "Go", 0), Move("split", "work", "left", "Left", 1), Move("split", "work", "right", "Right", 2),
    Move("work", "end", "done", "Done", 3)]

  lemma TwinReaches()
    ensures forall key | key in {"start", "split", "work", "end"} :: GraphValidator.Reaches(TWIN_TRANSITIONS, "start", key)
  {
    hide GraphValidator.Reaches;
    var ts := TWIN_TRANSITIONS;
    GraphValidator.ReachesSelf(ts, "start");
    assert ts[0] in ts && ts[1] in ts && ts[3] in ts;
    GraphValidator.ReachesNext(ts, "start", ts[0]);
    GraphValidator.ReachesNext(ts, "start", ts[1]);
    GraphValidator.ReachesNext(ts, "start", ts[3]);
  }

  lemma TwinDegrees(i: nat)
    requires i < 4
    ensures GraphValidator.DegreesFit(TWIN_NODES[i], TWIN_TRANSITIONS)
  {
    var ts := TWIN_TRANSITIONS;
    assert GraphValidator.EndKey(ts[0], GraphValidator.Source) == "start";
    assert GraphValidator.EndKey(ts[1], GraphValidator.Source) == "split" == GraphValidator.EndKey(ts[2], GraphValidator.Source);
    assert GraphValidator.EndKey(ts[3], GraphValidator.Source) == "work";
  }

  lemma TwinNodesFit()
    ensures forall n | n in TWIN_NODES ::
              && GraphValidator.NodeFits(n) && GraphValidator.DegreesFit(n, TWIN_TRANSITIONS)
              && GraphValidator.Reaches(TWIN_TRANSITIONS, "start", n.key)
  {
    hide GraphValidator.NodeFits, GraphValidator.DegreesFit, GraphValidator.Reaches;
    StepFits("start", NodeType.Start, "Start", map[], 0.0, []);
    StepFits("split", ParallelSplit, "Split", map[], 0.0, []);
    StepFits("work", HumanTask, "Work", map[], 0.0, ["assigneeId"]);
    StepFits("end", End, "End", map[], 0.0, []);
    TwinReaches();
    TwinDegrees(0);
    TwinDegrees(1);
    TwinDegrees(2);
    TwinDegrees(3);
  }

  lemma TwinShape()
    ensures GraphValidator.UniqueKeys(TWIN_NODES) && GraphValidator.StartsAt(TWIN_NODES, 0) && TWIN_NODES[0].key == "start"
    ensures TWIN_NODES[3] in TWIN_NODES && TWIN_NODES[3].kind.End? && ActionKeys.DistinctKeys(TWIN_TRANSITIONS)
  {
  }

  lemma TwinTransitionsFit()
    ensures forall t | t in TWIN_TRANSITIONS ::
              GraphValidator.Known(TWIN_NODES, t.sourceKey) && GraphValidator.Known(TWIN_NODES, t.targetKey)
              && GraphValidator.TransitionFits(t)
  {
  }

  const NO_ROWS := GraphStore.Tables([], [], [], 0)

  lemma TwinJoined()
    ensures GraphStore.Joined(TWIN_NODES, TWIN_TRANSITIONS)
    ensures GraphStore.HasKey(TWIN_NODES, "start") && GraphStore.IndexOf(TWIN_NODES, "start") == 0
    ensures GraphStore.HasKey(TWIN_NODES, "split") && GraphStore.IndexOf(TWIN_NODES, "split") == 1
    ensures GraphStore.HasKey(TWIN_NODES, "work") && GraphStore.IndexOf(TWIN_NODES, "work") == 2
    ensures GraphStore.HasKey(TWIN_NODES, "end") && GraphStore.IndexOf(TWIN_NODES, "end") == 3
  {
    assert TWIN_NODES[0].key == "start" && TWIN_NODES[1].key == "split" && TWIN_NODES[2].key == "work" && TWIN_NODES[3].key == "end";
  }

  lemma TrimKeeps(s: string)
    requires s != "" && !Text.IsSpace(s[0]) && !Text.IsSpace(s[|s| - 1])
    ensures Text.Trim(s) == s
  {
  }

  function TwinRow(i: nat): GraphStore.NodeRow
    requires i < 4
  {
    GraphStore.SaveNode(i, 1, TWIN_NODES[i])
  }

  lemma TwinRows(i: nat)
    requires i < 4
    ensures TwinRow(i).id == i && Node(TwinRow(i).kind, TwinRow(i).name, TwinRow(i).config) == TWIN.nodes[i]
  {
    hide Text.Trim;
    TrimKeeps("Start");
    TrimKeeps("Split");
    TrimKeeps("Work");
    TrimKeeps("End");
  }

  lemma TwinEdges(i: nat)
    requires i < 4 && GraphStore.Joined(TWIN_NODES, TWIN_TRANSITIONS)
    ensures var t := GraphStore.SavedTransitions(0, 1, TWIN_NODES, TWIN_TRANSITIONS)[i];
            Edge(t.sourceId, t.targetId, t.actionKey, t.caption, t.condition) == TWIN.edges[i]
  {
    hide GraphStore.HasKey, GraphStore.IndexOf, Text.Trim, Step, GraphStore.Joined;
    TwinJoined();
    TrimKeeps("Go");
    TrimKeeps("Left");
    TrimKeeps("Right");
    TrimKeeps("Done");
  }

  lemma TwinRead(view: GraphStore.View)
    requires |view.nodes| == 4 && forall i | 0 <= i < 4 :: view.nodes[i].row == TwinRow(i)
    ensures GraphRoundTrip.EngineGraph(view).nodes == TWIN.nodes
  {
    hide TwinRow, GraphRoundTrip.NodeAt;
    var nodes := GraphRoundTrip.EngineGraph(view).nodes;
    forall i | 0 <= i < 4
      ensures TwinRow(i).id == i && Node(TwinRow(i).kind, TwinRow(i).name, TwinRow(i).config) == TWIN.nodes[i]
    {
      TwinRows(i);
    }
    forall i | 0 <= i < 4
      ensures nodes[i] == TWIN.nodes[i]
    {
      assert view.nodes[i] in view.nodes;
      GraphRoundTrip.NodeAtPlace(view.nodes, i);
    }
    forall id: NodeId
      ensures id in nodes <==> id in TWIN.nodes
    {
      if id in TWIN.nodes {
        assert view.nodes[id] in view.nodes;
      }
    }
  }

  /** Saved and read back, it is the engine's graph. */
  lemma TwinDrawn()
    ensures GraphStore.Joined(TWIN_NODES, TWIN_TRANSITIONS)
    ensures var db := GraphStore.Replaced(NO_ROWS, 1, TWIN_NODES, TWIN_TRANSITIONS);
            exists view :: GraphStore.Loaded(db, 1, view) && GraphRoundTrip.EngineGraph(view) == TWIN
  {
    hide GraphStore.NodesOf, GraphStore.TransitionsOf, GraphStore.RulesOf, GraphStore.Joined, GraphStore.Replaced;
    hide GraphStore.SaveNode, GraphStore.SaveTransition, GraphStore.Loaded, Step, Move, GraphRoundTrip.NodeAt;
    TwinJoined();
    var db := GraphStore.Replaced(NO_ROWS, 1, TWIN_NODES, TWIN_TRANSITIONS);
    GraphRoundTrip.ReplacedHolds(NO_ROWS, 1, TWIN_NODES, TWIN_TRANSITIONS);
    GraphStore.TableOrderLoads(db, 1);
    var view := GraphStore.InTableOrder(db, 1);
    TwinRead(view);
    forall i | 0 <= i < 4
      ensures GraphRoundTrip.EngineGraph(view).edges[i] == TWIN.edges[i]
    {
      TwinEdges(i);
    }
    assert GraphRoundTrip.EngineGraph(view).edges == TWIN.edges;
  }

  /** Nothing is wrong with it. */
  lemma TwinAccepted()
    ensures GraphValidator.WellFormed(TWIN_NODES, TWIN_TRANSITIONS)
  {
    hide GraphValidator.NodeFits, GraphValidator.DegreesFit, GraphValidator.Reaches, GraphValidator.TransitionFits;
    hide ActionKeys.DistinctKeys, GraphValidator.Known, GraphValidator.UniqueKeys, GraphValidator.StartsAt;
    TwinNodesFit();
    TwinShape();
    TwinTransitionsFit();
  }
}
