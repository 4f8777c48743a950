/** The stored instance, changed in place by its transactions. */
module WorkflowInstances {
  import opened Outcomes
  import opened Json
  import opened WorkflowGraph
  import opened TokenEngine
  import opened Tenants
  import opened InstanceActions

  lemma NoBranchesLeft(g: Graph, env: Env, s: State, depth: nat)
    ensures FanOut(g, env, s, [], depth) == Ok(s)
  {
  }

  class WorkflowInstance {
    const graph: Graph
    const context: Context

    /** The stored row, and the copy a transaction edits and saves over it. */
    var row: Instance
    var entity: Instance
    var tokens: seq<Token>
    var tasks: seq<Task>
    var log: seq<LogEntry>
    ghost var firings: seq<Firing>

    ghost function Snapshot(): State
      reads this
    {
      State(row, entity, tokens, tasks, log, firings)
    }

    constructor (graph: Graph, context: Context, start: NodeId, actor: Option<UserId>)
      ensures this.graph == graph && this.context == context && Snapshot() == Fresh(start, actor)
    {
      this.graph, this.context := graph, context;
      row, entity := Instance(Running, Some(start), None), Instance(Running, Some(start), None);
      tokens, tasks := [NewToken(start, None)], [];
      log := [LogEntry(None, actor, "started", None, Some(start), map[], None)];
      firings := [];
    }

    /** One `startInstance` transaction; nothing is kept of a refused one. */
    static method Start(graph: Graph, env: Env, start: NodeId, actor: Option<UserId>)
      returns (instance: WorkflowInstance?, failure: Option<Error>)
      ensures match StartInstance(graph, env, start, actor)
              case Ok(s) =>
                && failure == None && instance != null && fresh(instance) && instance.Snapshot() == s
                && instance.graph == graph && instance.context == env.context
              case Err(e) => instance == null && failure == Some(e)
    {
      instance := null;
      if start !in graph.nodes || !graph.nodes[start].kind.Start? {
        return null, Some(NoStart);
      }
      var created := new WorkflowInstance(graph, env.context, start, actor);
      failure := created.ActivateToken(env, 0, 0);
      if failure == None {
        instance := created;
      }
    }

    method SaveInstance()
      modifies this`row
      ensures row == entity
    {
      row := entity;
    }

    method ActivateToken(env: Env, t: nat, depth: nat) returns (failure: Option<Error>)
      requires t < |tokens| && env.context == context
      modifies this
      ensures match Activate(graph, env, old(Snapshot()), t, depth)
              case Ok(s) => failure == None && Snapshot() == s
              case Err(e) => failure == Some(e)
      decreases Fuel(depth), 1
    {
      hide Activate, FanOut;
      ActivateUnfolds(graph, env, Snapshot(), t, depth);
      if depth > MAX_DEPTH {
        return Some(AutomaticLoop);
      }
      var n := tokens[t].node;
      if n !in graph.nodes {
        return Some(NodeMissing);
      }
      var node := graph.nodes[n];
      entity := entity.(currentNode := Some(n), status := Running);
      SaveInstance();
      assert Snapshot() == Arrive(old(Snapshot()), n);
      if node.kind == HumanTask {
        CreateHumanTask(env, t, node);
        return None;
      }
      if node.kind == End {
        ConsumeTokens({t}, env.now);
        firings := firings + [Ended(n)];
        RefreshInstanceStatus(env.now);
        return None;
      }
      if node.kind == ParallelJoin {
        failure := TryJoin(env, t, depth);
        return;
      }
      if node.kind == ParallelSplit {
        failure := OpenBranches(env, t, depth);
        return;
      }
      failure := PassOn(env, t, depth);
    }

    /** An automatic node: take the first enabled transition, or stay. */
    method PassOn(env: Env, t: nat, depth: nat) returns (failure: Option<Error>)
      requires t < |tokens| && env.context == context && depth <= MAX_DEPTH
      modifies this
      ensures match After(graph, env, Pass(graph, env, old(Snapshot()), t), depth)
              case Ok(s) => failure == None && Snapshot() == s
              case Err(e) => failure == Some(e)
      decreases Fuel(depth), 0
    {
      hide Activate;
      var n := tokens[t].node;
      var selected := FindOpen(graph.Outgoing(n));
      if selected == None {
        entity := entity.(status := InstanceBlocked);
        SaveInstance();
        return None;
      }
      var edge := selected.value;
      log := log + [LogEntry(None, None, edge.actionKey, Some(n), Some(edge.target), map["automatic" := Bool(true)], None)];
      failure := MoveToken(env, t, edge.target, depth + 1);
    }

    /** The first enabled transition. */
    method FindOpen(edges: seq<Edge>) returns (found: Option<Edge>)
      ensures var enabled := Enabled(edges, context);
              found == if enabled == [] then None else Some(enabled[0])
    {
      for i := 0 to |edges|
        invariant Enabled(edges, context) == Enabled(edges[i..], context)
      {
        assert edges[i..][1..] == edges[i + 1..];
        if Open(edges[i], context) {
          return Some(edges[i]);
        }
      }
      return None;
    }

    method OpenBranches(env: Env, t: nat, depth: nat) returns (failure: Option<Error>)
      requires t < |tokens| && env.context == context && depth <= MAX_DEPTH
      modifies this
      ensures match After(graph, env, Divide(graph, env, old(Snapshot()), t), depth)
              case Ok(s) => failure == None && Snapshot() == s
              case Err(e) => failure == Some(e)
      decreases Fuel(depth), 0
    {
      hide Activate;
      var n := tokens[t].node;
      ConsumeTokens({t}, env.now);
      firings := firings + [Split(n, |graph.Branches(n, context)|)];
      assert Snapshot() == Divide(graph, env, old(Snapshot()), t).state;
      failure := OpenEach(env, graph.Outgoing(n), depth + 1);
    }

    method OpenEach(env: Env, outgoing: seq<Edge>, depth: nat) returns (failure: Option<Error>)
      requires env.context == context
      modifies this
      ensures match FanOut(graph, env, old(Snapshot()), Enabled(outgoing, context), depth)
              case Ok(s) => failure == None && Snapshot() == s
              case Err(e) => failure == Some(e)
      decreases Fuel(depth), 2
    {
      hide Activate, FanOut;
      for i := 0 to |outgoing|
        invariant FanOut(graph, env, old(Snapshot()), Enabled(outgoing, context), depth)
                  == FanOut(graph, env, Snapshot(), Enabled(outgoing[i..], context), depth)
      {
        var edge := outgoing[i];
        assert outgoing[i..][1..] == outgoing[i + 1..];
        ghost var rest := Enabled(outgoing[i + 1..], context);
        assert Enabled(outgoing[i..], context) == if Open(edge, context) then [edge] + rest else rest;
        if Open(edge, context) {
          FanOutUnfolds(graph, env, Snapshot(), edge, rest, depth);
          var branch := |tokens|;
          ghost var before := Snapshot();
          tokens := tokens + [NewToken(edge.target, Some(edge.actionKey))];
          assert Snapshot() == Spawn(before, edge);
          failure := ActivateToken(env, branch, depth);
          if failure != None {
            return;
          }
        }
      }
      NoBranchesLeft(graph, env, Snapshot(), depth);
      return None;
    }

    method MoveToken(env: Env, t: nat, target: NodeId, depth: nat) returns (failure: Option<Error>)
      requires t < |tokens| && env.context == context
      modifies this
      ensures match Activate(graph, env, Shift(env, old(Snapshot()), t, target), old(|tokens|), depth + 1)
              case Ok(s) => failure == None && Snapshot() == s
              case Err(e) => failure == Some(e)
      decreases Fuel(depth), 2
    {
      var branchKey := tokens[t].branchKey;
      firings := firings + [Passed(tokens[t].node)];
      ConsumeTokens({t}, env.now);
      var next := |tokens|;
      tokens := tokens + [NewToken(target, branchKey)];
      assert Snapshot() == Shift(env, old(Snapshot()), t, target);
      failure := ActivateToken(env, next, depth + 1);
    }

    method TryJoin(env: Env, t: nat, depth: nat) returns (failure: Option<Error>)
      requires t < |tokens| && env.context == context && tokens[t].node in graph.nodes && depth <= MAX_DEPTH
      modifies this
      ensures match After(graph, env, Join(graph, env, old(Snapshot()), t), depth)
              case Ok(s) => failure == None && Snapshot() == s
              case Err(e) => failure == Some(e)
      decreases Fuel(depth), 0
    {
      hide Activate;
      var n := tokens[t].node;
      var branchKey := tokens[t].branchKey;
      var waiting := Waiting(tokens, n);
      if |waiting| as real < graph.Threshold(n) {
        return None;
      }
      ConsumeTokens(waiting, env.now);
      var selected := FindOpen(graph.Outgoing(n));
      if selected == None {
        firings := firings + [Joined(n, |waiting|, 0)];
        entity := entity.(status := InstanceBlocked);
        SaveInstance();
        return None;
      }
      firings := firings + [Joined(n, |waiting|, 1)];
      var next := |tokens|;
      tokens := tokens + [NewToken(selected.value.target, branchKey)];
      assert Join(graph, env, old(Snapshot()), t) == Go(Snapshot(), next, 1);
      failure := ActivateToken(env, next, depth + 1);
    }

    method ConsumeTokens(ids: set<nat>, now: int)
      modifies this`tokens
      ensures tokens == Consume(old(tokens), ids, now)
    {
      var i := 0;
      while i < |tokens|
        invariant 0 <= i <= |tokens| == |old(tokens)|
        invariant forall j | 0 <= j < |tokens| ::
                    tokens[j] == if j < i then Consume(old(tokens), ids, now)[j] else old(tokens)[j]
      {
        if i in ids {
          tokens := tokens[i := tokens[i].(status := Consumed, consumedAt := Some(now))];
        }
        i := i + 1;
      }
    }

    method CreateHumanTask(env: Env, t: nat, node: Node)
      requires t < |tokens|
      modifies this
      ensures Snapshot() == OpenTask(node, env, old(Snapshot()), t)
    {
      var n := tokens[t].node;
      if OpenTaskAt(tasks, n) {
        return;
      }
      var k := |tasks|;
      tasks := tasks + [Task(n, node.name, Pending, None, None, Some(t), map[])];
      var assignees := AssigneesAt(env, n);
      if assignees.executors == {} {
        tasks := tasks[k := tasks[k].(status := Blocked)];
        entity := entity.(status := InstanceBlocked);
        SaveInstance();
        assert tasks == old(tasks) + [Task(n, node.name, Blocked, None, None, Some(t), map[])];
        return;
      }
      var observers := assignees.observers - assignees.executors;
      var kind := if |assignees.executors| == 1 then Assignee else Candidate;
      var roles := (map u | u in assignees.executors :: kind) + (map u | u in observers :: Watcher);
      assert roles == Roles(assignees);
      tasks := tasks[k := tasks[k].(assignments := roles)];
      assert tasks == old(tasks) + [Task(n, node.name, Pending, None, None, Some(t), roles)];
    }

    method RefreshInstanceStatus(now: int)
      modifies this`row
      ensures Snapshot() == Refresh(old(Snapshot()), now)
    {
      var active := ActiveTokens(tokens);
      if active == {} {
        row := Instance(InstanceCompleted, None, Some(now));
        return;
      }
      row := row.(status := if SomeBlocked(tasks) then InstanceBlocked else Running);
      if |active| == 1 {
        ghost var u :| u in active;
        row := row.(currentNode := Some(tokens[FirstActive(tokens, 0)].node));
      }
    }

    /** One `performAction` transaction. A failure rolls every change back. */
    method PerformAction(env: Env, user: User, req: Request) returns (failure: Option<Error>)
      requires env.context == context
      modifies this
      ensures Snapshot() == Attempt(graph, old(Snapshot()), Command(env, user, req))
      ensures match Perform(graph, env, old(Snapshot()), user, req)
              case Ok(_) => failure == None
              case Err(e) => failure == Some(e)
    {
      if Replayed(env, log, req) {
        return None;
      }
      var savedRow, savedEntity, savedTokens, savedTasks, savedLog := row, entity, tokens, tasks, log;
      ghost var savedFirings := firings;
      failure := Transact(env, user, req);
      if failure != None {
        row, entity, tokens, tasks, log := savedRow, savedEntity, savedTokens, savedTasks, savedLog;
        firings := savedFirings;
      }
    }

    method Transact(env: Env, user: User, req: Request) returns (failure: Option<Error>)
      requires env.context == context && !Replayed(env, log, req)
      modifies this
      ensures match Perform(graph, env, old(Snapshot()), user, req)
              case Ok(s) => failure == None && Snapshot() == s
              case Err(e) => failure == Some(e)
    {
      hide Activate;
      ghost var before := Snapshot();
      var admitted := CheckAction(user, req);
      if admitted.Err? {
        return Some(admitted.error);
      }
      var Admission(k, edge) := admitted.value;
      var task := tasks[k];
      entity := row;
      tasks := tasks[k := Close(task, user.id, env.now)];
      var token := TokenOf(tokens, task);
      if token == None {
        return Some(TokenNotActive);
      }
      if req.idempotencyKey.Some? && KeyUsed(env, log, req.idempotencyKey.value) {
        return Some(DuplicateKey);
      }
      log := log + [LogEntry(Some(k), Some(user.id), req.actionKey, Some(task.node), Some(edge.target),
                             req.payload, req.idempotencyKey)];
      assert Entry(env, before, user, req, admitted.value)
             == Ok((Shift(env, Snapshot(), token.value, edge.target), |tokens|));
      failure := MoveToken(env, token.value, edge.target, 0);
      if failure == None {
        RefreshInstanceStatus(env.now);
      }
    }

    /** The checks made before anything is written. */
    method CheckAction(user: User, req: Request) returns (r: Result<Admission, Error>)
      ensures r == Admit(graph, context, Snapshot(), user, req)
    {
      if row.status.InstanceCompleted? {
        return Err(InstanceFinished);
      }
      if forall k | 0 <= k < |tasks| :: !CandidateTask(tasks, req, k) {
        return Err(NoOpenTask);
      }
      var found := FindTask(user, req);
      if found == None {
        return Err(NotAssigned);
      }
      var task := tasks[found.value];
      var edge := FindEdge(graph.edges, task.node, req.actionKey);
      if edge == None {
        return Err(UnknownAction);
      }
      if Barred(Config(graph, task.node), user) {
        return Err(PermissionMissing);
      }
      if !AcceptsPayload(Lookup(Config(graph, task.node), "formFields"), req.payload, req.actionKey) {
        return Err(InvalidPayload);
      }
      if !Open(edge.value, Merge(context, req.payload)) {
        return Err(ConditionNotMet);
      }
      return Ok(Admission(found.value, edge.value));
    }

    /** The first open task, among those asked for, that the user may act on. */
    method FindTask(user: User, req: Request) returns (found: Option<nat>)
      ensures found == FirstAssigned(tasks, user, req, 0)
    {
      for k := 0 to |tasks|
        invariant FirstAssigned(tasks, user, req, 0) == FirstAssigned(tasks, user, req, k)
      {
        if CandidateTask(tasks, req, k) && Assigned(tasks[k], user) {
          return Some(k);
        }
      }
      return None;
    }
  }
}
