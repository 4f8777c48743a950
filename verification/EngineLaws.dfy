/** What each kind of node does with a token, in terms of its configuration, its transitions and the tokens that wait. */
module EngineLaws {
  import opened Outcomes
  import opened Json
  import opened WorkflowGraph
  import opened TokenEngine
  import opened Tenants
  import opened InstanceActions
  import opened EngineSafety
  import opened EngineMarking
  import Conditions

  // ------------------------------------------------------- transitions of a node

  /** The places of the transitions that lead to a node. */
  function Entries(g: Graph, n: NodeId): set<nat> {
    EntriesOf(g.edges, n)
  }

  function EntriesOf(edges: seq<Edge>, n: NodeId): set<nat> {
    set i: nat | i < |edges| && edges[i].target == n
  }

  lemma {:induction false} IntoLast(edges: seq<Edge>, n: NodeId)
    requires edges != []
    ensures Into(edges, n) == Into(edges[..|edges| - 1], n) + if edges[|edges| - 1].target == n then 1 else 0
  {
    if |edges| > 1 {
      IntoLast(edges[1..], n);
      assert edges[1..][..|edges| - 2] == edges[..|edges| - 1][1..];
    }
  }

  lemma {:induction false} IntoCounts(edges: seq<Edge>, n: NodeId)
    ensures Into(edges, n) == |EntriesOf(edges, n)|
  {
    if edges == [] {
      assert EntriesOf(edges, n) == {};
    } else {
      var rest := edges[..|edges| - 1];
      IntoLast(edges, n);
      IntoCounts(rest, n);
      EntriesLast(edges, n);
    }
  }

  lemma EntriesLast(edges: seq<Edge>, n: NodeId)
    requires edges != []
    ensures |EntriesOf(edges, n)| == |EntriesOf(edges[..|edges| - 1], n)| + if edges[|edges| - 1].target == n then 1 else 0
  {
    var rest := edges[..|edges| - 1];
    assert EntriesOf(edges, n) == EntriesOf(rest, n) + if edges[|edges| - 1].target == n then {|rest|} else {};
  }

  lemma IncomingCounts(g: Graph, n: NodeId)
    ensures g.Incoming(n) == |Entries(g, n)|
  {
    IntoCounts(g.edges, n);
  }

  predicate Passable(e: Edge, n: NodeId, context: Value) {
    e.source == n && (e.condition.None? || Conditions.Evaluate(e.condition.value, context))
  }

  /** The transitions of a node that may be taken, in their order. */
  function Ways(edges: seq<Edge>, n: NodeId, context: Value): seq<Edge> {
    if edges == [] then []
    else (if Passable(edges[0], n, context) then [edges[0]] else []) + Ways(edges[1..], n, context)
  }

  lemma {:induction false} WaysAre(edges: seq<Edge>, n: NodeId, context: Value)
    ensures Enabled(From(edges, n), context) == Ways(edges, n, context)
  {
    hide Conditions.Evaluate;
    if edges != [] {
      WaysAre(edges[1..], n, context);
      var rest := From(edges[1..], n);
      if edges[0].source == n {
        assert From(edges, n) == [edges[0]] + rest;
        assert ([edges[0]] + rest)[1..] == rest;
      } else {
        assert From(edges, n) == rest;
      }
    }
  }

  lemma {:induction false} FirstOfWays(edges: seq<Edge>, n: NodeId, context: Value, i: nat)
    requires i < |edges| && Passable(edges[i], n, context) && forall j | 0 <= j < i :: !Passable(edges[j], n, context)
    ensures Ways(edges, n, context) != [] && Ways(edges, n, context)[0] == edges[i]
  {
    hide Passable;
    if i > 0 {
      FirstOfWays(edges[1..], n, context, i - 1);
    }
  }

  lemma {:induction false} NoWays(edges: seq<Edge>, n: NodeId, context: Value)
    ensures Ways(edges, n, context) == [] <==> forall j | 0 <= j < |edges| :: !Passable(edges[j], n, context)
  {
    hide Passable;
    if edges != [] {
      NoWays(edges[1..], n, context);
      assert forall j | 0 < j < |edges| :: edges[j] == edges[1..][j - 1];
    }
  }

  /** An automatic node takes the first transition whose condition holds, in their order, and none if there is none. */
  lemma TakesFirst(g: Graph, n: NodeId, context: Value, i: nat)
    requires i <= |g.edges| && forall j | 0 <= j < i :: !Passable(g.edges[j], n, context)
    ensures i < |g.edges| && Passable(g.edges[i], n, context) ==> g.Selected(n, context) == Some(g.edges[i])
    ensures i == |g.edges| ==> g.Selected(n, context) == None
  {
    hide Passable, Enabled, From;
    WaysAre(g.edges, n, context);
    if i == |g.edges| {
      NoWays(g.edges, n, context);
    } else if Passable(g.edges[i], n, context) {
      FirstOfWays(g.edges, n, context, i);
    }
  }

  /** A split opens all transitions whose conditions hold, each once and in their order. */
  lemma OpensAll(g: Graph, n: NodeId, context: Value)
    ensures g.Branches(n, context) == Ways(g.edges, n, context)
  {
    WaysAre(g.edges, n, context);
  }

  /** The instance is saved as the transaction has it: on the node, and with the completion time it had when it was read. */
  predicate Saved(before: State, after: State, n: NodeId) {
    after.row == after.entity && after.row.currentNode == Some(n) && after.row.completedAt == before.entity.completedAt
  }

  // -------------------------------------------------------------------- joins

  predicate Configured(g: Graph, n: NodeId, strategy: string)
    requires n in g.nodes
  {
    "joinStrategy" in g.nodes[n].config && g.nodes[n].config["joinStrategy"] == Str(strategy)
  }

  /** The active tokens on a node. */
  function Standing(tokens: seq<Token>, n: NodeId): set<nat> {
    set u: nat | u < |tokens| && tokens[u].node == n && tokens[u].status == Active
  }

  /** An arriving token makes the join fire: it does not stay. */
  predicate Fires(g: Graph, env: Env, s: State, t: nat)
    requires t < |s.tokens|
  {
    var r := Visit(g, env, s, t);
    r.Ok? && (r.value.Go? || (r.value.Halt? && t < |r.value.state.tokens| && r.value.state.tokens[t].status.Consumed?))
  }

  /** When a join fires, by its configuration, with `w` tokens waiting and `e` transitions leading to it. */
  lemma JoinFiresIff(g: Graph, env: Env, s: State, t: nat)
    requires Arrived(g, s, t) && g.nodes[s.tokens[t].node].kind.ParallelJoin?
    ensures var n := s.tokens[t].node;
            var w, e, config := |Standing(s.tokens, n)|, |Entries(g, n)|, g.nodes[n].config;
            && (!Configured(g, n, "ANY") && !Configured(g, n, "QUORUM") ==> (Fires(g, env, s, t) <==> w >= e))
            && (Configured(g, n, "ANY") ==> Fires(g, env, s, t))
            && (Configured(g, n, "QUORUM") && "quorum" in config && config["quorum"].Num? ==>
                  (Fires(g, env, s, t) <==> w >= 1 && w as real >= config["quorum"].n))
            && (Configured(g, n, "QUORUM") && !("quorum" in config && config["quorum"].Num?) ==>
                  (Fires(g, env, s, t) <==> w >= 1 && w >= e))
  {
    hide Graph.Selected, Graph.Incoming, EntriesOf;
    var n := s.tokens[t].node;
    IncomingCounts(g, n);
    assert t in Waiting(s.tokens, n);
    assert Waiting(s.tokens, n) == Standing(s.tokens, n) && |Standing(s.tokens, n)| >= 1;
  }

  /** Firing consumes all that waited there, and nothing else, and sends one token on by the first open way, with the branch
      of the last to arrive; without a way nothing goes on and the instance is blocked. */
  lemma JoinFiring(g: Graph, env: Env, s: State, t: nat)
    requires Arrived(g, s, t) && g.nodes[s.tokens[t].node].kind.ParallelJoin? && Fires(g, env, s, t)
    ensures var n := s.tokens[t].node;
            var hop, way := Visit(g, env, s, t).value, Ways(g.edges, n, env.context);
            var after := hop.state;
            && (forall u: nat | u < |s.tokens| ::
                  if s.tokens[u].status.Active? && s.tokens[u].node == n
                  then after.tokens[u] == s.tokens[u].(status := Consumed, consumedAt := Some(env.now))
                  else after.tokens[u] == s.tokens[u])
            && after.tasks == s.tasks && after.log == s.log && Saved(s, after, n)
            && (if way == [] then hop.Halt? && |after.tokens| == |s.tokens| && after.row.status.InstanceBlocked?
                else
                  && hop.Go? && hop.next == |s.tokens| && hop.cost == 1 && |after.tokens| == |s.tokens| + 1
                  && after.tokens[|s.tokens|] == Token(way[0].target, Active, s.tokens[t].branchKey, None))
  {
    hide Enabled, From, Graph.Threshold, Ways;
    WaysAre(g.edges, s.tokens[t].node, env.context);
  }

  /** Below its threshold a join leaves every token where it is. */
  lemma JoinWaits(g: Graph, env: Env, s: State, t: nat)
    requires Arrived(g, s, t) && g.nodes[s.tokens[t].node].kind.ParallelJoin? && !Fires(g, env, s, t)
    ensures Visit(g, env, s, t).Ok? && Visit(g, env, s, t).value.Halt?
    ensures var after := Visit(g, env, s, t).value.state;
            && after.tokens == s.tokens && after.tasks == s.tasks && after.log == s.log
            && after.row.status.Running? && Saved(s, after, s.tokens[t].node)
  {
    hide Enabled, From, Graph.Threshold;
    var n := s.tokens[t].node;
    assert t in Waiting(s.tokens, n);
  }

  // ------------------------------------------- a split whose branches meet again

  /** Edges that all lead straight to `j`. */
  predicate LeadTo(edges: seq<Edge>, j: NodeId) {
    forall e | e in edges :: e.target == j
  }

  lemma JoinPlay(g: Graph, context: Value, m: Marking, j: NodeId, budget: nat)
    requires j in g.nodes && g.nodes[j].kind.ParallelJoin? && !Configured(g, j, "ANY") && !Configured(g, j, "QUORUM")
    ensures Play(g, context, m, j, budget) ==
            if m[j] + 1 < |Entries(g, j)| then Some(Played(m + multiset{j}, [], false))
            else if g.Selected(j, context).None? then Some(Played(m[j := 0], [], false))
            else Play(g, context, m[j := 0], g.Selected(j, context).value.target, budget - 1)
  {
    hide Graph.Selected, Graph.Incoming, EntriesOf;
    IncomingCounts(g, j);
  }

  /** Branches that meet on a join for all of them: all but the last wait, and one token goes on. */
  lemma {:induction false} BranchesMeet(g: Graph, context: Value, m: Marking, edges: seq<Edge>, j: NodeId, budget: nat)
    requires j in g.nodes && g.nodes[j].kind.ParallelJoin? && !Configured(g, j, "ANY") && !Configured(g, j, "QUORUM")
    requires edges != [] && LeadTo(edges, j) && m[j] + |edges| == |Entries(g, j)| && g.Selected(j, context).Some?
    ensures PlayAll(g, context, m, edges, budget)
            == Play(g, context, m[j := 0], g.Selected(j, context).value.target, budget - 1)
    decreases |edges|
  {
    hide Play, Graph.Selected, EntriesOf, Configured;
    JoinPlay(g, context, m, j, budget);
    if |edges| > 1 {
      BranchesMeet(g, context, m + multiset{j}, edges[1..], j, budget);
      assert (m + multiset{j})[j := 0] == m[j := 0];
    } else {
      assert edges[1..] == [];
    }
    SameButLandings(Play(g, context, m[j := 0], g.Selected(j, context).value.target, budget - 1));
  }

  lemma SameButLandings(p: Option<Played>)
    ensures p.Some? ==> Played(p.value.marking, [] + p.value.landings, p.value.ended) == p.value
    ensures p.Some? ==> Played(p.value.marking, p.value.landings + [], p.value.ended) == p.value
  {
  }

  /** Branches that meet on a join for any of them: each goes on by itself. */
  lemma AnyPasses(g: Graph, context: Value, m: Marking, j: NodeId, budget: nat)
    requires j in g.nodes && g.nodes[j].kind.ParallelJoin? && Configured(g, j, "ANY") && m[j] == 0
    ensures Play(g, context, m, j, budget) ==
            if g.Selected(j, context).None? then Some(Played(m, [], false))
            else Play(g, context, m, g.Selected(j, context).value.target, budget - 1)
  {
    hide Graph.Selected, Graph.Incoming;
    assert m[j := 0] == m;
  }

  // ---------------------------------------------------------------- other nodes

  /** A start, service or condition node moves the token along the first open way and logs it; without a way the token stays
      and the instance is blocked. */
  lemma AutomaticStep(g: Graph, env: Env, s: State, t: nat)
    requires Arrived(g, s, t)
    requires var kind := g.nodes[s.tokens[t].node].kind; kind.Start? || kind.ServiceTask? || kind.Condition?
    ensures var n := s.tokens[t].node;
            var r, way := Visit(g, env, s, t), Ways(g.edges, n, env.context);
            && r.Ok? && r.value.state.tasks == s.tasks && Saved(s, r.value.state, n)
            && (if way == [] then
                  r.value.Halt? && r.value.state.tokens == s.tokens && r.value.state.log == s.log
                  && r.value.state.row.status.InstanceBlocked?
                else
                  && r.value.Go? && r.value.next == |s.tokens| && r.value.cost == 2
                  && r.value.state.tokens
                     == s.tokens[t := s.tokens[t].(status := Consumed, consumedAt := Some(env.now))]
                        + [Token(way[0].target, Active, s.tokens[t].branchKey, None)]
                  && r.value.state.log
                     == s.log + [LogEntry(None, None, way[0].actionKey, Some(n), Some(way[0].target), map["automatic" := Bool(true)], None)])
  {
    hide Enabled, From, Ways;
    WaysAre(g.edges, s.tokens[t].node, env.context);
  }

  /** A split consumes the token and opens every way, in order, each with its action's key for a branch. */
  lemma SplitStep(g: Graph, env: Env, s: State, t: nat, e: Edge)
    requires Arrived(g, s, t) && g.nodes[s.tokens[t].node].kind.ParallelSplit?
    ensures var r := Visit(g, env, s, t);
            && r.Ok? && r.value.Fork? && r.value.edges == Ways(g.edges, s.tokens[t].node, env.context)
            && r.value.state.tokens == s.tokens[t := s.tokens[t].(status := Consumed, consumedAt := Some(env.now))]
            && r.value.state.tasks == s.tasks && r.value.state.log == s.log
            && r.value.state.row.status.Running? && Saved(s, r.value.state, s.tokens[t].node)
    ensures Spawn(s, e).tokens == s.tokens + [Token(e.target, Active, Some(e.actionKey), None)]
    ensures Spawn(s, e).tasks == s.tasks && Spawn(s, e).log == s.log
  {
    hide Enabled, From, Ways;
    WaysAre(g.edges, s.tokens[t].node, env.context);
  }

  /** An end consumes the token; the instance is completed exactly if it was the last one. */
  lemma EndStep(g: Graph, env: Env, s: State, t: nat)
    requires Arrived(g, s, t) && g.nodes[s.tokens[t].node].kind.End?
    ensures var r := Visit(g, env, s, t);
            && r.Ok? && r.value.Halt? && r.value.state.tasks == s.tasks && r.value.state.log == s.log
            && r.value.state.tokens == s.tokens[t := s.tokens[t].(status := Consumed, consumedAt := Some(env.now))]
            && (r.value.state.row.status.InstanceCompleted? <==> forall u: nat | u < |s.tokens| && u != t :: s.tokens[u].status.Consumed?)
            && (r.value.state.row.status.InstanceCompleted? ==>
                  r.value.state.row.completedAt == Some(env.now) && r.value.state.row.currentNode == None)
            && r.value.state.entity == s.entity.(status := Running, currentNode := Some(s.tokens[t].node))
  {
    var after := Consume(s.tokens, {t}, env.now);
    AfterConsume(s.tokens, {t}, env.now);
    forall u: nat | u < |s.tokens| && u != t
      ensures u in ActiveTokens(after) <==> s.tokens[u].status.Active?
    {
    }
    if forall u: nat | u < |s.tokens| && u != t :: s.tokens[u].status.Consumed? {
      assert ActiveTokens(after) == {};
    }
    hide SomeBlocked, FirstActive;
  }

  /** Who gets what at a human step: one executor is assigned, several are candidates, observers who do not execute watch. */
  ghost predicate Invites(a: Assignees, assignments: map<UserId, Role>) {
    && (forall u :: u in assignments <==> u in a.executors || u in a.observers)
    && (forall u | u in a.executors :: assignments[u] == if a.executors == {u} then Assignee else Candidate)
    && (forall u | u in a.observers && u !in a.executors :: assignments[u] == Watcher)
  }

  /** A human step opens one task, for the token, unless one is open there; without executors the task and the instance are
      blocked and nobody is invited. */
  lemma HumanStep(g: Graph, env: Env, s: State, t: nat)
    requires Arrived(g, s, t) && g.nodes[s.tokens[t].node].kind.HumanTask?
    ensures var n := s.tokens[t].node;
            var r, a := Visit(g, env, s, t), if n in env.directory then env.directory[n] else Assignees({}, {});
            && r.Ok? && r.value.Halt? && r.value.state.tokens == s.tokens && r.value.state.log == s.log
            && Saved(s, r.value.state, n)
            && (if exists k: nat :: k < |s.tasks| && s.tasks[k].node == n && !s.tasks[k].status.Completed? && !s.tasks[k].status.Cancelled?
                then r.value.state.tasks == s.tasks && r.value.state.row.status.Running?
                else
                  && |r.value.state.tasks| == |s.tasks| + 1 && r.value.state.tasks[..|s.tasks|] == s.tasks
                  && var task := r.value.state.tasks[|s.tasks|];
                  && task.node == n && task.name == g.nodes[n].name && task.tokenId == Some(t)
                  && task.claimedBy.None? && task.completedAt.None?
                  && (if a.executors == {} then task.status.Blocked? && task.assignments == map[] && r.value.state.row.status.InstanceBlocked?
                      else task.status.Pending? && Invites(a, task.assignments) && r.value.state.row.status.Running?))
  {
    hide Enabled, From;
    var n := s.tokens[t].node;
    var a := AssigneesAt(env, n);
    if k: nat :| k < |s.tasks| && s.tasks[k].node == n && !s.tasks[k].status.Completed? && !s.tasks[k].status.Cancelled? {
      assert s.tasks[k].IsOpen();
    }
    if a.executors != {} {
      RolesInvite(a);
    }
  }

  lemma RolesInvite(a: Assignees)
    ensures Invites(a, Roles(a))
  {
    forall u | u in a.executors
      ensures |a.executors| == 1 <==> a.executors == {u}
    {
      if |a.executors| == 1 {
        assert |a.executors - {u}| == 0;
        assert a.executors == (a.executors - {u}) + {u};
      }
    }
  }

  // ------------------------------------------------------ how far a token gets

  function Station(kind: NodeType, k: nat, i: int): Node {
    Node(if i == 0 then NodeType.Start else if i == k then HumanTask else kind, "", map[])
  }

  /** A start, then `k - 1` nodes of one automatic kind in a row, then a human step with an action back to the first of them. */
  function Relay(kind: NodeType, k: nat): Graph
    requires k >= 2
  {
    Graph(map i: int | 0 <= i <= k :: Station(kind, k, i),
          seq(k, i requires 0 <= i < k => Edge(i, i + 1, "next", "", None)) + [Edge(k, 1, "again", "", None)])
  }

  lemma RelayNext(kind: NodeType, k: nat, i: nat, context: Value)
    requires k >= 2 && i < k
    ensures Relay(kind, k).Selected(i, context) == Some(Edge(i, i + 1, "next", "", None))
    ensures Relay(kind, k).Branches(i, context) == [Edge(i, i + 1, "next", "", None)]
  {
    var g := Relay(kind, k);
    hide Enabled, From;
    TakesFirst(g, i, context, i);
    OpensAll(g, i, context);
    RelayWays(kind, k, i, context, 0);
    assert g.edges[0..] == g.edges;
  }

  lemma {:induction false} RelayWays(kind: NodeType, k: nat, i: nat, context: Value, from: nat)
    requires k >= 2 && i < k && from <= k + 1
    ensures Ways(Relay(kind, k).edges[from..], i, context) == if from <= i then [Edge(i, i + 1, "next", "", None)] else []
    decreases k + 1 - from
  {
    var edges := Relay(kind, k).edges;
    if from <= k {
      RelayWays(kind, k, i, context, from + 1);
      assert edges[from..][1..] == edges[from + 1..];
      assert edges[from..][0] == edges[from];
    }
  }

  lemma {:induction false} RelayPlay(kind: NodeType, k: nat, i: nat, context: Value, m: Marking, budget: int)
    requires k >= 2 && i <= k && (kind.ServiceTask? || kind.ParallelSplit?)
    ensures var cost := if kind.ServiceTask? then 2 else 1;
            var need := if i == 0 then 2 + cost * (k - 1) else cost * (k - i);
            Play(Relay(kind, k), context, m, i, budget).Some? <==> budget >= need
    decreases k - i
  {
    hide Graph.Selected, Graph.Branches;
    var g, e := Relay(kind, k), Edge(i, i + 1, "next", "", None);
    if i < k {
      RelayNext(kind, k, i, context);
      RelayPlay(kind, k, i + 1, context, m, budget - 1);
      RelayPlay(kind, k, i + 1, context, m, budget - 2);
      assert PlayAll(g, context, m, [e], budget - 1).Some? <==> Play(g, context, m, i + 1, budget - 1).Some? by {
        assert [e][1..] == [];
      }
      assert 2 * (k - i) == 2 + 2 * (k - i - 1) && 1 * (k - i) == 1 + 1 * (k - i - 1);
    }
  }

  /** From a start a token passes 32 automatic nodes in a row, the start among them, or the start and 62 splits. */
  lemma StartReaches(kind: NodeType, k: nat, env: Env, actor: Option<UserId>)
    requires k >= 2 && (kind.ServiceTask? || kind.ParallelSplit?)
    ensures StartInstance(Relay(kind, k), env, 0, actor).Ok? <==> if kind.ServiceTask? then k <= 32 else k <= 63
  {
    hide Play, Activate;
    RelayPlay(kind, k, 0, env.context, multiset{}, 64);
    StartPlays(Relay(kind, k), env, 0, actor);
  }

  /** After an action it passes 31 automatic nodes, or 63 splits. */
  lemma ActionReaches(kind: NodeType, k: nat, env: Env, s: State, user: User, req: Request)
    requires k >= 2 && (kind.ServiceTask? || kind.ParallelSplit?) && Settled(Relay(kind, k), env.context, s)
    requires !Replayed(env, s.log, req) && req.idempotencyKey != Some("")
    requires Admit(Relay(kind, k), env.context, s, user, req).Ok? && req.actionKey == "again"
    ensures Perform(Relay(kind, k), env, s, user, req).Ok? <==> if kind.ServiceTask? then k - 1 <= 31 else k - 1 <= 63
  {
    hide Play, Activate, Perform, Settled, Replayed, MarkingOf, Admit;
    var g, a := Relay(kind, k), Admit(Relay(kind, k), env.context, s, user, req).value;
    AdmittedEdge(g, env.context, s, user, req);
    RelayPlay(kind, k, 1, env.context, MarkingOf(s.tokens) - multiset{s.tasks[a.task].node}, 63);
    PerformPlays(g, env, s, user, req);
  }

  lemma AdmittedEdge(g: Graph, context: Context, s: State, user: User, req: Request)
    requires Admit(g, context, s, user, req).Ok?
    ensures Admit(g, context, s, user, req).value.edge in g.edges
    ensures Admit(g, context, s, user, req).value.edge.actionKey == req.actionKey
  {
  }
}
